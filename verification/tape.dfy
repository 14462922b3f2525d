/** Replaying a taught tape. */
module Tape {
  import opened Common
  import opened Teach

  /** What the agent injects into the desktop. */
  datatype Input =
    | MouseClick(x: real, y: real)
    | DoubleClick(x: real, y: real)
    | RightClick(x: real, y: real)
    | TypeText(text: string)
    | Shortcut(keys: string)

  datatype Step = Step(ord: nat, kind: string, caption: string, axTarget: Option<Json>, tape: Option<Json>, deletedTs: int)

  /** `teach_steps_to_proto`. */
  function ToProto(records: seq<Record>): (steps: seq<Step>)
    ensures |steps| == |records|
  {
    if records == [] then []
    else
      var r := records[|records| - 1];
      ToProto(records[..|records| - 1]) + [Step(r.ord, r.kind, r.caption, r.axTarget, r.tape, 0)]
  }

  function Number(j: Json, key: string, other: string): real {
    if !j.JObj? then 0.0
    else
      var v := if key in j.fields then Some(j.fields[key]) else if other in j.fields then Some(j.fields[other]) else None;
      if v.Some? && v.value.JNum? then v.value.number else 0.0
  }

  function Point(target: Option<Json>): (real, real) {
    match target
    case None => (0.0, 0.0)
    case Some(j) => (Number(j, "x", "center_x"), Number(j, "y", "center_y"))
  }

  /** `execute_win32_action`: unknown kinds inject nothing. */
  function Action(kind: string, target: Option<Json>, text: string): seq<Input> {
    var (x, y) := Point(target);
    if kind == "click" then [MouseClick(x, y)]
    else if kind == "double_click" then [DoubleClick(x, y)]
    else if kind == "right_click" then [RightClick(x, y)]
    else if kind == "type" then [TypeText(text)]
    else if kind == "shortcut" then [Shortcut(text)]
    else []
  }

  /** `extract_type_text`: the recorded text, or else the step's caption. */
  function TypeTextOf(tape: Option<Json>, caption: string): string {
    if TapeText(tape).Some? then TapeText(tape).value else caption
  }

  datatype Outcome = Outcome(inputs: seq<Input>, ok: bool)

  /** `execute_step`; `shell` is how a shell command would end. */
  function Execute(s: Step, shell: bool): Outcome {
    if s.kind == "click" || s.kind == "double_click" || s.kind == "right_click" then Outcome(Action(s.kind, s.axTarget, ""), true)
    else if s.kind == "type" then Outcome(Action("type", None, TypeTextOf(s.tape, s.caption)), true)
    else if s.kind == "shortcut" then Outcome(Action("shortcut", None, s.caption), true)
    else if s.kind == "shell" && Trim(s.caption) != "" then Outcome([], shell)
    else Outcome([], true)
  }

  /** The steps one after the other, until one fails. */
  function Played(steps: seq<Step>, shell: seq<bool>): Outcome
    requires |shell| == |steps|
  {
    if steps == [] then Outcome([], true)
    else
      var n := |steps| - 1;
      var before := Played(steps[..n], shell[..n]);
      if !before.ok || steps[n].deletedTs > 0 then before
      else
        var o := Execute(steps[n], shell[n]);
        Outcome(before.inputs + o.inputs, o.ok)
  }

  /** `play`. */
  method Play(steps: seq<Step>, shell: seq<bool>) returns (inputs: seq<Input>, ok: bool)
    requires |shell| == |steps|
    ensures Outcome(inputs, ok) == Played(steps, shell)
  {
    inputs, ok := [], true;
    var i := 0;
    while i < |steps|
      invariant 0 <= i <= |steps| && ok
      invariant Outcome(inputs, true) == Played(steps[..i], shell[..i])
    {
      assert steps[..i + 1][..i] == steps[..i] && shell[..i + 1][..i] == shell[..i];
      if steps[i].deletedTs <= 0 {
        var o := Execute(steps[i], shell[i]);
        inputs := inputs + o.inputs;
        if !o.ok {
          ok := false;
          FailureIsFinal(steps, shell, i + 1);
          return;
        }
      }
      i := i + 1;
    }
    assert steps[..i] == steps && shell[..i] == shell;
  }

  lemma {:induction false} FailureIsFinal(steps: seq<Step>, shell: seq<bool>, i: nat)
    requires |shell| == |steps| && i <= |steps| && !Played(steps[..i], shell[..i]).ok
    ensures Played(steps, shell) == Played(steps[..i], shell[..i])
    decreases |steps|
  {
    if i == |steps| {
      assert steps[..i] == steps && shell[..i] == shell;
    } else {
      var n := |steps| - 1;
      assert steps[..n][..i] == steps[..i] && shell[..n][..i] == shell[..i];
      FailureIsFinal(steps[..n], shell[..n], i);
    }
  }

  // ------------------------------------------------------------- teach, then replay

  /** The inputs a teacher's event stands for, read off the event and the burst it closes.
      A closed password burst stands for its caption: the replay types that text, because
      the tape carries none. The Enter key that closed a burst stands for nothing. */
  function Burst(s: State, enter: bool): seq<Input> {
    if !CommitDue(s) then []
    else if s.isPassword then [TypeText(TypeLabel(s.window, FieldName(s.control), "", true, enter))]
    else [TypeText(s.typing)]
  }

  function ClickInput(sc: Screen, kind: string, x: int, y: int): Input {
    if kind == "double_click" then DoubleClick(Norm(x, sc.w), Norm(y, sc.h))
    else if kind == "right_click" then RightClick(Norm(x, sc.w), Norm(y, sc.h))
    else MouseClick(Norm(x, sc.w), Norm(y, sc.h))
  }

  function Meant(sc: Screen, s: State, e: Event): seq<Input> {
    match e
    case Stop => if s.recording then Burst(s, false) else []
    case Click(x, y, _, _) => if s.recording then Burst(s, false) + [ClickInput(sc, "click", x, y)] else []
    case ClickKind(kind, x, y, _, _) => if s.recording then Burst(s, false) + [ClickInput(sc, kind, x, y)] else []
    case Key(vk, _, _) =>
      if !s.recording then []
      else if vk == KEY_F9 || vk == KEY_ESCAPE then Burst(s, false)
      else if vk == KEY_ENTER then Burst(s, true)
      else []
    case Poll(now) => if IdleLongEnough(s, now) then Burst(s, false) else []
    case _ => []
  }

  predicate Forgets(e: Event) {
    (e.Start? && Trim(e.title) != "") || e.Discard?
  }

  /** Everything a run of events meant since the last start or discard. */
  function MeantByRun(sc: Screen, es: seq<Event>): seq<Input> {
    if es == [] then []
    else
      var n := |es| - 1;
      var e := es[n];
      if Forgets(e) then []
      else MeantByRun(sc, es[..n]) + Meant(sc, Run(sc, Idle([]), es[..n]), e)
  }

  predicate KindsKnown(es: seq<Event>) {
    forall i | 0 <= i < |es| :: es[i].ClickKind? ==> ClickKindKnown(es[i].kind)
  }

  function ReplayOf(r: Record): seq<Input> {
    Execute(Step(r.ord, r.kind, r.caption, r.axTarget, r.tape, 0), true).inputs
  }

  function ReplayOfAll(rs: seq<Record>): seq<Input> {
    if rs == [] then [] else ReplayOfAll(rs[..|rs| - 1]) + ReplayOf(rs[|rs| - 1])
  }

  predicate Taught(r: Record) {
    r.kind == "type" || ClickKindKnown(r.kind)
  }

  lemma {:induction false} TaughtTapePlays(rs: seq<Record>, shell: seq<bool>)
    requires |shell| == |rs| && AllTaught(rs)
    ensures Played(ToProto(rs), shell) == Outcome(ReplayOfAll(rs), true)
  {
    if rs != [] {
      var n := |rs| - 1;
      TaughtTapePlays(rs[..n], shell[..n]);
      assert ToProto(rs)[..n] == ToProto(rs[..n]);
    }
  }

  lemma CommitReplays(s: State, enter: bool)
    requires AllTaught(s.steps)
    ensures var t := Commit(s, enter);
            ReplayOfAll(t.steps) == ReplayOfAll(s.steps) + Burst(s, enter) && AllTaught(t.steps)
  {
    if CommitDue(s) {
      var t := Commit(s, enter);
      assert t.steps[..|s.steps|] == s.steps;
      TypedTapeText(s.isPassword, FieldName(s.control), s.window, s.typing, enter);
      assert ReplayOf(t.steps[|s.steps|]) == Burst(s, enter);
    } else {
      assert ReplayOfAll(s.steps) + [] == ReplayOfAll(s.steps);
    }
  }

  lemma AddClickReplays(sc: Screen, s: State, kind: string, caption: string, x: int, y: int, window: string, control: string)
    requires ClickKindKnown(kind) && AllTaught(s.steps)
    ensures var t := AddClick(sc, s, kind, caption, x, y, window, control);
            ReplayOfAll(t.steps) == ReplayOfAll(s.steps) + [ClickInput(sc, kind, x, y)] && AllTaught(t.steps)
  {
    var t := AddClick(sc, s, kind, caption, x, y, window, control);
    assert t.steps[..|s.steps|] == s.steps;
    TargetPoint(sc, x, y, window, control);
    assert ReplayOf(t.steps[|s.steps|]) == [ClickInput(sc, kind, x, y)];
  }

  lemma TargetPoint(sc: Screen, x: int, y: int, window: string, control: string)
    ensures Point(Some(ClickTarget(sc, x, y, window, control))) == (Norm(x, sc.w), Norm(y, sc.h))
  {
    var f := ClickTarget(sc, x, y, window, control).fields;
    assert |"x"| == |"y"| == 1 && "x"[0] != "y"[0];
    assert f["x"] == JNum(Norm(x, sc.w)) && f["y"] == JNum(Norm(y, sc.h));
  }

  ghost predicate AllTaught(rs: seq<Record>) {
    forall i | 0 <= i < |rs| :: Taught(rs[i])
  }

  lemma ClickReplays(sc: Screen, s: State, t: State, kind: string, caption: string, x: int, y: int, window: string, control: string)
    requires ClickKindKnown(kind) && AllTaught(s.steps) && t.steps == Commit(s, false).steps
    ensures var u := AddClick(sc, t, kind, caption, x, y, window, control);
            AllTaught(u.steps) &&
            ReplayOfAll(u.steps) == ReplayOfAll(s.steps) + (Burst(s, false) + [ClickInput(sc, kind, x, y)])
  {
    CommitReplays(s, false);
    AddClickReplays(sc, t, kind, caption, x, y, window, control);
    var r, c := ReplayOfAll(s.steps), [ClickInput(sc, kind, x, y)];
    assert r + (Burst(s, false) + c) == (r + Burst(s, false)) + c;
  }

  lemma EventReplays(sc: Screen, s: State, e: Event)
    requires Inv(s) && KindsKnown([e]) && AllTaught(s.steps)
    ensures AllTaught(Apply(sc, s, e).steps)
    ensures ReplayOfAll(Apply(sc, s, e).steps) == if Forgets(e) then [] else ReplayOfAll(s.steps) + Meant(sc, s, e)
  {
    assert [e][0] == e;
    if e.Click? && s.recording {
      var t := Commit(s, false).(control := e.control, window := e.window);
      ClickReplays(sc, s, t, "click", ClickLabel(e.window, e.control), e.x, e.y, e.window, e.control);
    } else if e.ClickKind? && s.recording {
      ClickReplays(sc, s, Commit(s, false), e.kind, ClickKindLabel(e.kind, e.window, e.control), e.x, e.y, e.window, e.control);
    } else {
      OtherEventReplays(sc, s, e);
    }
  }

  /** Any other event leaves the steps alone, forgets them, or closes the burst. */
  lemma OtherEventReplays(sc: Screen, s: State, e: Event)
    requires Inv(s) && AllTaught(s.steps) && ((e.Click? || e.ClickKind?) ==> !s.recording)
    ensures AllTaught(Apply(sc, s, e).steps)
    ensures ReplayOfAll(Apply(sc, s, e).steps) == if Forgets(e) then [] else ReplayOfAll(s.steps) + Meant(sc, s, e)
  {
    var enter := e.Key? && e.vk == KEY_ENTER;
    CommitReplays(s, enter);
    StepsAfter(sc, s, e, enter);
    assert ReplayOfAll(s.steps) + [] == ReplayOfAll(s.steps);
  }

  lemma StepsAfter(sc: Screen, s: State, e: Event, enter: bool)
    requires Inv(s) && ((e.Click? || e.ClickKind?) ==> !s.recording) && (enter <==> e.Key? && e.vk == KEY_ENTER)
    ensures if Forgets(e) then Apply(sc, s, e).steps == []
            else || (Apply(sc, s, e).steps == s.steps && Meant(sc, s, e) == [])
                 || (Apply(sc, s, e).steps == Commit(s, enter).steps && Meant(sc, s, e) == Burst(s, enter))
  {
  }

  lemma {:induction false} RunReplays(sc: Screen, es: seq<Event>)
    requires KindsKnown(es)
    ensures var t := Run(sc, Idle([]), es);
            ReplayOfAll(t.steps) == MeantByRun(sc, es) && AllTaught(t.steps)
  {
    if es != [] {
      var n := |es| - 1;
      RunReplays(sc, es[..n]);
      RunKeepsInv(sc, Idle([]), es[..n]);
      assert KindsKnown([es[n]]);
      EventReplays(sc, Run(sc, Idle([]), es[..n]), es[n]);
    }
  }

  /** Teach, then replay: after any recording the tape plays to its end and injects exactly
      the clicks and texts the teacher's events meant, in order. */
  lemma TeachThenReplay(sc: Screen, es: seq<Event>, shell: seq<bool>)
    requires KindsKnown(es) && |shell| == |Run(sc, Idle([]), es).steps|
    ensures Played(ToProto(Run(sc, Idle([]), es).steps), shell) == Outcome(MeantByRun(sc, es), true)
  {
    RunReplays(sc, es);
    TaughtTapePlays(Run(sc, Idle([]), es).steps, shell);
  }

  function TextIn(inputs: seq<Input>): string {
    if inputs == [] then ""
    else TextIn(inputs[..|inputs| - 1]) + (if inputs[|inputs| - 1].TypeText? then inputs[|inputs| - 1].text else "")
  }

  ghost predicate TextKept(rs: seq<Record>) {
    forall i | 0 <= i < |rs| && rs[i].kind == "type" :: TapeText(rs[i].tape).Some?
  }

  lemma {:induction false} ReplayedText(rs: seq<Record>)
    requires AllTaught(rs) && TextKept(rs)
    ensures TextIn(ReplayOfAll(rs)) == Committed(rs)
  {
    if rs != [] {
      var n := |rs| - 1;
      ReplayedText(rs[..n]);
      var a, b := ReplayOfAll(rs[..n]), ReplayOf(rs[n]);
      assert |b| == 1;
      assert (a + b)[..|a|] == a;
      assert TextOf(rs[n]) == if b[0].TypeText? then b[0].text else "";
    }
  }

  lemma CommitKeepsText(s: State, enter: bool)
    requires TextKept(s.steps) && !s.isPassword
    ensures TextKept(Commit(s, enter).steps)
  {
    TypedTapeText(s.isPassword, FieldName(s.control), s.window, s.typing, enter);
  }

  lemma EventKeepsText(sc: Screen, s: State, e: Event)
    requires Inv(s) && TextKept(s.steps) && !s.isPassword && KindsKnown([e])
    ensures TextKept(Apply(sc, s, e).steps)
  {
    assert [e][0] == e;
    var enter := e.Key? && e.vk == KEY_ENTER;
    CommitKeepsText(s, enter);
    if !((e.Click? || e.ClickKind?) && s.recording) {
      StepsAfter(sc, s, e, enter);
    }
  }

  lemma {:induction false} TextIsKept(sc: Screen, es: seq<Event>)
    requires NoSecrets(es)
    ensures TextKept(Run(sc, Idle([]), es).steps)
  {
    if es != [] {
      var n := |es| - 1;
      TextIsKept(sc, es[..n]);
      RecordedTextIsTypedText(sc, es[..n]);
      EventKeepsText(sc, Run(sc, Idle([]), es[..n]), es[n]);
    }
  }

  /** Without password fields, playing the tape of a finished recording succeeds and types
      exactly the text the teacher typed, as the editor understands it. */
  lemma ReplayTypesTheText(sc: Screen, es: seq<Event>, shell: seq<bool>)
    requires NoSecrets(es) && !Run(sc, Idle([]), es).recording && |shell| == |Run(sc, Idle([]), es).steps|
    ensures var o := Played(ToProto(Run(sc, Idle([]), es).steps), shell);
            o.ok && TextIn(o.inputs) == EditAll(Editor("", 0, None, false), es).text
  {
    var s := Run(sc, Idle([]), es);
    RunReplays(sc, es);
    TaughtTapePlays(s.steps, shell);
    TextIsKept(sc, es);
    ReplayedText(s.steps);
    RecordedTextIsTypedText(sc, es);
    assert Committed(s.steps) + "" == Committed(s.steps);
  }
}
