/** The teach recorder: clicks and typing bursts become numbered steps. */
module Teach {
  import opened Common

  datatype Json = JNull | JBool(flag: bool) | JNum(number: real) | JStr(str: string) | JObj(fields: map<string, Json>)

  /** One recorded step. A JSON column is `None` when its text is empty. */
  datatype Record = Record(ord: nat, kind: string, caption: string, axTarget: Option<Json>, tape: Option<Json>)

  /** `shown` lists what the overlay was asked to show. */
  datatype State = State(
    title: string, recording: bool, steps: seq<Record>, typing: string, control: string, window: string,
    isPassword: bool, lastTypeAt: Option<nat>, startedAt: Option<nat>, nextOrd: nat, shown: seq<(nat, string)>)

  function Idle(shown: seq<(nat, string)>): State {
    State("", false, [], "", "", "", false, None, None, 0, shown)
  }

  const KEY_F9: nat := 0x78
  const KEY_ESCAPE: nat := 0x1B
  const KEY_ENTER: nat := 0x0D
  const KEY_BACKSPACE: nat := 0x08
  const IDLE_MS: nat := 500

  // ------------------------------------------------------------- labels

  function Capital(s: string): string {
    if s != "" && 'a' <= s[0] <= 'z' then [s[0] - 'a' + 'A'] + s[1..] else s
  }

  function ReplaceAll(s: string, a: string, b: string): string
    requires a != ""
    decreases |s|
  {
    if s == "" then ""
    else if a <= s then b + ReplaceAll(s[|a|..], a, b)
    else [s[0]] + ReplaceAll(s[1..], a, b)
  }

  function ClickLabel(window: string, name: string): string {
    var control := if Trim(name) == "" then "a control" else Trim(name);
    if Trim(window) == "" then "Click " + control else "In " + Trim(window) + ", click " + control
  }

  function ClickKindLabel(kind: string, window: string, control: string): string {
    if kind == "right_click" then "Right-click " + (if control == "" then "control" else control)
    else if kind == "double_click" then ReplaceAll(ClickLabel(window, control), "click", "double-click")
    else ClickLabel(window, control)
  }

  function TypeLabel(window: string, name: string, text: string, isPassword: bool, enter: bool): string {
    var field := if Trim(name) == "" then "the field" else Trim(name);
    var verb := if isPassword then "fill password in " + field
                else if |text| > 40 then "fill " + field + " with text"
                else "fill " + field + " with \"" + text + "\"";
    var loc := if Trim(window) == "" then Capital(verb) else "In " + Trim(window) + ", " + verb;
    if enter then loc + ", then press Enter" else loc
  }

  function FieldName(control: string): string {
    if control == "" then "the field" else control
  }

  // ------------------------------------------------------------- the recording functions

  /** The captured screen's size in pixels. */
  datatype Screen = Screen(w: int, h: int)

  function Norm(v: int, size: int): (r: real)
    ensures 0.0 <= r <= 1.0
  {
    var q := v as real / (if size < 1 then 1 else size) as real;
    if q < 0.0 then 0.0 else if q > 1.0 then 1.0 else q
  }

  function ClickTarget(sc: Screen, x: int, y: int, window: string, control: string): Json {
    var nx, ny := Norm(x, sc.w), Norm(y, sc.h);
    JObj(map["x" := JNum(nx), "y" := JNum(ny), "center_x" := JNum(nx), "center_y" := JNum(ny),
             "pixel_x" := JNum(x as real), "pixel_y" := JNum(y as real), "window" := JStr(window), "mark" := JStr(control)])
  }

  /** The local-only column of a typing step; a password's text is never put there. */
  function TypedTape(isPassword: bool, name: string, window: string, text: string, enter: bool): Json {
    if isPassword then
      JObj(map["field" := JStr(name), "window" := JStr(window), "is_password" := JBool(true), "enter" := JBool(enter)])
    else
      JObj(map["field" := JStr(name), "window" := JStr(window), "text" := JStr(text),
               "is_password" := JBool(false), "enter" := JBool(enter)])
  }

  predicate CommitDue(s: State) {
    s.typing != "" || s.isPassword
  }

  function TypingRecord(ord: nat, window: string, name: string, text: string, isPassword: bool, enter: bool): Record {
    Record(ord, "type", TypeLabel(window, name, if isPassword then "" else text, isPassword, enter), None,
           Some(TypedTape(isPassword, name, window, text, enter)))
  }

  /** The step that closes the burst. */
  function TypedStep(s: State, enter: bool): Record {
    TypingRecord(s.nextOrd + 1, s.window, FieldName(s.control), s.typing, s.isPassword, enter)
  }

  /** `commit_typing`. */
  function Commit(s: State, enter: bool): State {
    if !CommitDue(s) then s
    else
      var step := TypedStep(s, enter);
      s.(nextOrd := s.nextOrd + 1, steps := s.steps + [step],
         typing := "", isPassword := false, lastTypeAt := None, shown := s.shown + [(step.ord, step.caption)])
  }

  datatype Event =
    | Start(title: string, now: nat)
    | Stop
    | Discard
    | Click(x: int, y: int, window: string, control: string)
    | ClickKind(kind: string, x: int, y: int, window: string, control: string)
    | Key(vk: nat, ch: string, now: nat)
    | Focus(window: string, control: string, isPassword: bool)
    | Poll(now: nat)

  function ClickStep(sc: Screen, ord: nat, kind: string, caption: string, x: int, y: int, window: string, control: string): Record {
    Record(ord, kind, caption, Some(ClickTarget(sc, x, y, window, control)), None)
  }

  function AddClick(sc: Screen, s: State, kind: string, caption: string, x: int, y: int, window: string, control: string): State {
    s.(nextOrd := s.nextOrd + 1,
       steps := s.steps + [ClickStep(sc, s.nextOrd + 1, kind, caption, x, y, window, control)],
       shown := s.shown + [(s.nextOrd + 1, caption)])
  }

  function Ghosted(isPassword: bool, control: string): string {
    (if isPassword then "Typing password in " else "Typing in ") + FieldName(control) + "..."
  }

  function KeyDown(s: State, vk: nat, ch: string, now: nat): State {
    if vk == KEY_F9 || vk == KEY_ESCAPE then StopRecording(s)
    else if !s.recording then s
    else if vk == KEY_ENTER then Commit(s, true)
    else if vk == KEY_BACKSPACE then
      if s.isPassword || s.typing == "" then s else s.(typing := s.typing[..|s.typing| - 1])
    else if ch == "" then s
    else
      var t := s.(typing := if s.isPassword then s.typing else s.typing + ch, lastTypeAt := Some(now));
      t.(shown := t.shown + [(if t.nextOrd > 1 then t.nextOrd else 1, Ghosted(t.isPassword, t.control))])
  }

  function StopRecording(s: State): State {
    if !s.recording then s else Commit(s, false).(recording := false)
  }

  predicate IdleLongEnough(s: State, now: nat) {
    s.lastTypeAt.Some? && now >= s.lastTypeAt.value + IDLE_MS
  }

  /** One call of the recorder's interface. */
  function Apply(sc: Screen, s: State, e: Event): State {
    match e
    case Start(title, now) =>
      if Trim(title) == "" then s else Idle(s.shown).(title := Trim(title), recording := true, startedAt := Some(now))
    case Stop => StopRecording(s)
    case Discard => Idle(s.shown)
    case Click(x, y, window, control) =>
      if !s.recording then s
      else AddClick(sc, Commit(s, false).(control := control, window := window), "click", ClickLabel(window, control), x, y, window, control)
    case ClickKind(kind, x, y, window, control) =>
      if !s.recording then s
      else AddClick(sc, Commit(s, false), kind, ClickKindLabel(kind, window, control), x, y, window, control)
    case Key(vk, ch, now) => KeyDown(s, vk, ch, now)
    case Focus(window, control, isPassword) =>
      if !s.recording then s
      else s.(window := window, control := if Trim(control) == "" then s.control else control, isPassword := s.isPassword || isPassword)
    case Poll(now) =>
      if CommitDue(s) && IdleLongEnough(s, now) then Commit(s, false) else s
  }

  function Run(sc: Screen, s: State, es: seq<Event>): State {
    if es == [] then s else Apply(sc, Run(sc, s, es[..|es| - 1]), es[|es| - 1])
  }

  /** The recorder as an object, field by field. */
  class Recorder {
    const screen: Screen
    var title: string
    var recording: bool
    var steps: seq<Record>
    var typing: string
    var control: string
    var window: string
    var isPassword: bool
    var lastTypeAt: Option<nat>
    var startedAt: Option<nat>
    var nextOrd: nat
    var shown: seq<(nat, string)>

    constructor (screen: Screen)
      ensures this.screen == screen && S() == Idle([])
    {
      this.screen := screen;
      title, recording, steps, typing, control, window := "", false, [], "", "", "";
      isPassword, lastTypeAt, startedAt, nextOrd, shown := false, None, None, 0, [];
    }

    function S(): State
      reads this
    {
      State(title, recording, steps, typing, control, window, isPassword, lastTypeAt, startedAt, nextOrd, shown)
    }

    method Reset()
      modifies this
      ensures S() == Idle(old(shown))
    {
      title, recording, steps, typing, control, window := "", false, [], "", "", "";
      isPassword, lastTypeAt, startedAt, nextOrd := false, None, None, 0;
    }

    method CommitTyping(enter: bool)
      modifies this
      ensures S() == Commit(old(S()), enter)
    {
      if typing == "" && !isPassword {
        return;
      }
      var step := TypedStep(S(), enter);
      nextOrd := nextOrd + 1;
      steps := steps + [step];
      typing, isPassword, lastTypeAt := "", false, None;
      shown := shown + [(nextOrd, step.caption)];
    }

    method TeachStart(t: string, now: nat) returns (ok: bool)
      modifies this
      ensures S() == Apply(screen, old(S()), Start(t, now)) && (ok <==> Trim(t) != "")
    {
      if Trim(t) == "" {
        return false;
      }
      Reset();
      title, recording, startedAt := Trim(t), true, Some(now);
      return true;
    }

    method TeachStop() returns (taught: seq<Record>)
      modifies this
      ensures S() == Apply(screen, old(S()), Stop) && taught == steps && !recording
    {
      if recording {
        CommitTyping(false);
        recording := false;
      }
      return steps;
    }

    method TeachDiscard()
      modifies this
      ensures S() == Apply(screen, old(S()), Discard)
    {
      Reset();
    }

    method RecordClick(x: int, y: int, win: string, ctl: string)
      modifies this
      ensures S() == Apply(screen, old(S()), Click(x, y, win, ctl))
    {
      if !recording {
        return;
      }
      CommitTyping(false);
      nextOrd := nextOrd + 1;
      control, window := ctl, win;
      var caption := ClickLabel(win, ctl);
      steps := steps + [ClickStep(screen, nextOrd, "click", caption, x, y, win, ctl)];
      shown := shown + [(nextOrd, caption)];
    }

    method RecordClickKind(kind: string, x: int, y: int, win: string, ctl: string)
      modifies this
      ensures S() == Apply(screen, old(S()), ClickKind(kind, x, y, win, ctl))
    {
      if !recording {
        return;
      }
      CommitTyping(false);
      nextOrd := nextOrd + 1;
      var caption := ClickKindLabel(kind, win, ctl);
      steps := steps + [ClickStep(screen, nextOrd, kind, caption, x, y, win, ctl)];
      shown := shown + [(nextOrd, caption)];
    }

    method KeyEvent(vk: nat, ch: string, now: nat) returns (stopped: bool)
      modifies this
      ensures S() == Apply(screen, old(S()), Key(vk, ch, now))
      ensures stopped <==> vk == KEY_F9 || vk == KEY_ESCAPE
    {
      stopped := false;
      if vk == KEY_F9 || vk == KEY_ESCAPE {
        var _ := TeachStop();
        return true;
      }
      if !recording {
        return;
      }
      if vk == KEY_ENTER {
        CommitTyping(true);
        return;
      }
      if vk == KEY_BACKSPACE {
        if !isPassword && typing != "" {
          typing := typing[..|typing| - 1];
        }
        return;
      }
      if ch == "" {
        return;
      }
      if !isPassword {
        typing := typing + ch;
      }
      lastTypeAt := Some(now);
      shown := shown + [(if nextOrd > 1 then nextOrd else 1, Ghosted(isPassword, control))];
    }

    method FocusField(win: string, ctl: string, secret: bool)
      modifies this
      ensures S() == Apply(screen, old(S()), Focus(win, ctl, secret))
    {
      if !recording {
        return;
      }
      window := win;
      if Trim(ctl) != "" {
        control := ctl;
      }
      if secret {
        isPassword := true;
      }
    }

    method FlushTypingIfIdle(now: nat)
      modifies this
      ensures S() == Apply(screen, old(S()), Poll(now))
    {
      if typing == "" && !isPassword {
        return;
      }
      if lastTypeAt.Some? && now >= lastTypeAt.value + IDLE_MS {
        CommitTyping(false);
      }
    }
  }

  // ------------------------------------------------------------- invariants of every run

  /** Steps are numbered 1..n, and outside a recording nothing is buffered and no password
      is being typed. */
  predicate Inv(s: State) {
    && s.nextOrd == |s.steps|
    && (forall i | 0 <= i < |s.steps| :: s.steps[i].ord == i + 1)
    && (!s.recording ==> s.typing == "" && !s.isPassword)
  }

  lemma CommitKeepsInv(s: State, enter: bool)
    requires Inv(s)
    ensures Inv(Commit(s, enter)) && Commit(s, enter).typing == "" && !Commit(s, enter).isPassword
    ensures Commit(s, enter).recording == s.recording
  {
  }

  lemma ClickKeepsInv(sc: Screen, s: State, kind: string, caption: string, x: int, y: int, window: string, control: string)
    requires Inv(s)
    ensures Inv(AddClick(sc, s, kind, caption, x, y, window, control))
  {
  }

  lemma ApplyKeepsInv(sc: Screen, s: State, e: Event)
    requires Inv(s)
    ensures Inv(Apply(sc, s, e))
  {
    match e
    case Click(x, y, window, control) =>
      CommitKeepsInv(s, false);
      ClickKeepsInv(sc, Commit(s, false).(control := control, window := window), "click", ClickLabel(window, control), x, y, window, control);
    case ClickKind(kind, x, y, window, control) =>
      CommitKeepsInv(s, false);
      ClickKeepsInv(sc, Commit(s, false), kind, ClickKindLabel(kind, window, control), x, y, window, control);
    case Key(vk, _, _) => CommitKeepsInv(s, vk == KEY_ENTER);
    case _ => CommitKeepsInv(s, false);
  }

  lemma {:induction false} RunKeepsInv(sc: Screen, s: State, es: seq<Event>)
    requires Inv(s)
    ensures Inv(Run(sc, s, es))
  {
    if es != [] {
      RunKeepsInv(sc, s, es[..|es| - 1]);
      ApplyKeepsInv(sc, Run(sc, s, es[..|es| - 1]), es[|es| - 1]);
    }
  }

  /** After a stop nothing but a new start or a discard changes anything at all. */
  lemma {:induction false} StoppedIsFrozen(sc: Screen, s: State, es: seq<Event>)
    requires Inv(s) && !s.recording && forall i | 0 <= i < |es| :: !es[i].Start? && !es[i].Discard?
    ensures Run(sc, s, es) == s
  {
    if es != [] {
      StoppedIsFrozen(sc, s, es[..|es| - 1]);
    }
  }

  // ------------------------------------------------------------- erasure of secrets

  predicate Ordinary(vk: nat) {
    vk != KEY_F9 && vk != KEY_ESCAPE && vk != KEY_ENTER && vk != KEY_BACKSPACE
  }

  /** Two events that may differ only in which character is keyed, and only while the
      password flag is set. */
  predicate SameButSecret(s: State, a: Event, b: Event) {
    a == b ||
    (s.isPassword && a.Key? && b.Key? && a.now == b.now && a.ch != "" && b.ch != "" && Ordinary(a.vk) && Ordinary(b.vk))
  }

  predicate SameButSecrets(sc: Screen, s: State, a: seq<Event>, b: seq<Event>) {
    |a| == |b| && forall i | 0 <= i < |a| :: SameButSecret(Run(sc, s, a[..i]), a[i], b[i])
  }

  /** Recorder erasure: two runs whose events differ only in the characters keyed while the
      password flag is set end in one state. Steps, labels, tapes and everything the overlay
      showed are the same, so none of it depends on those characters. */
  lemma {:induction false} SecretsAreErased(sc: Screen, s: State, a: seq<Event>, b: seq<Event>)
    requires SameButSecrets(sc, s, a, b)
    ensures Run(sc, s, a) == Run(sc, s, b)
  {
    if a != [] {
      var n := |a| - 1;
      assert forall i | 0 <= i < n :: a[..n][..i] == a[..i];
      SecretsAreErased(sc, s, a[..n], b[..n]);
      SecretIsErased(sc, Run(sc, s, a[..n]), a[n], b[n]);
    }
  }

  lemma SecretIsErased(sc: Screen, s: State, a: Event, b: Event)
    requires SameButSecret(s, a, b)
    ensures Apply(sc, s, a) == Apply(sc, s, b)
  {
  }

  // ------------------------------------------------------------- what was typed

  function TapeText(tape: Option<Json>): Option<string> {
    if tape.Some? && tape.value.JObj? && "text" in tape.value.fields && tape.value.fields["text"].JStr?
    then Some(tape.value.fields["text"].str) else None
  }

  function TextOf(r: Record): string {
    if r.kind == "type" && TapeText(r.tape).Some? then TapeText(r.tape).value else ""
  }

  lemma TypedTapeText(isPassword: bool, name: string, window: string, text: string, enter: bool)
    ensures TapeText(Some(TypedTape(isPassword, name, window, text, enter))) == if isPassword then None else Some(text)
  {
    var f := TypedTape(isPassword, name, window, text, enter).fields;
    assert |"text"| == 4 && |"field"| == 5 && |"window"| == 6 && |"is_password"| == 11 && |"enter"| == 5;
    if !isPassword {
      assert f["text"] == JStr(text);
    } else {
      assert "text" !in f;
    }
  }

  lemma TypedStepText(s: State, enter: bool)
    ensures TextOf(TypedStep(s, enter)) == if s.isPassword then "" else s.typing
  {
    TypedTapeText(s.isPassword, FieldName(s.control), s.window, s.typing, enter);
  }

  lemma ClickStepText(sc: Screen, ord: nat, kind: string, caption: string, x: int, y: int, window: string, control: string)
    requires ClickKindKnown(kind)
    ensures TextOf(ClickStep(sc, ord, kind, caption, x, y, window, control)) == ""
  {
  }

  function Committed(steps: seq<Record>): string {
    if steps == [] then "" else Committed(steps[..|steps| - 1]) + TextOf(steps[|steps| - 1])
  }

  /** A plain text editor with one limit: only the last `open` characters, the burst not yet
      committed, can be erased. */
  datatype Editor = Editor(text: string, open: nat, last: Option<nat>, live: bool)

  function Close(d: Editor): Editor {
    if d.open == 0 then d else d.(open := 0, last := None)
  }

  function Edit(d: Editor, e: Event): Editor {
    match e
    case Start(title, _) => if Trim(title) == "" then d else Editor("", 0, None, true)
    case Stop => if d.live then Close(d).(live := false) else d
    case Discard => Editor("", 0, None, false)
    case Click(_, _, _, _) => if d.live then Close(d) else d
    case ClickKind(_, _, _, _, _) => if d.live then Close(d) else d
    case Key(vk, ch, now) =>
      if !d.live then d
      else if vk == KEY_F9 || vk == KEY_ESCAPE then Close(d).(live := false)
      else if vk == KEY_ENTER then Close(d)
      else if vk == KEY_BACKSPACE then
        if 0 < d.open <= |d.text| then d.(text := d.text[..|d.text| - 1], open := d.open - 1) else d
      else if ch == "" then d
      else Editor(d.text + ch, d.open + |ch|, Some(now), true)
    case Focus(_, _, _) => d
    case Poll(now) => if d.last.Some? && now >= d.last.value + IDLE_MS then Close(d) else d
  }

  function EditAll(d: Editor, es: seq<Event>): Editor {
    if es == [] then d else Edit(EditAll(d, es[..|es| - 1]), es[|es| - 1])
  }

  ghost predicate Follows(s: State, d: Editor) {
    && Inv(s) && !s.isPassword
    && d.text == Committed(s.steps) + s.typing && d.open == |s.typing| && d.last == s.lastTypeAt && d.live == s.recording
  }

  /** Kinds the agents pass to the click recorder. */
  predicate ClickKindKnown(kind: string) {
    kind == "click" || kind == "double_click" || kind == "right_click"
  }

  predicate NoSecrets(es: seq<Event>) {
    forall i | 0 <= i < |es| :: (es[i].Focus? ==> !es[i].isPassword) && (es[i].ClickKind? ==> ClickKindKnown(es[i].kind))
  }

  lemma CommittedSnoc(steps: seq<Record>, r: Record)
    ensures Committed(steps + [r]) == Committed(steps) + TextOf(r)
  {
    assert (steps + [r])[..|steps|] == steps;
  }

  lemma CommitTexts(s: State, enter: bool)
    ensures Committed(Commit(s, enter).steps) == Committed(s.steps) + if s.isPassword then "" else s.typing
  {
    if CommitDue(s) {
      CommittedSnoc(s.steps, TypedStep(s, enter));
      TypedStepText(s, enter);
    } else {
      assert Committed(s.steps) + "" == Committed(s.steps);
    }
  }

  lemma CommitFollows(s: State, d: Editor, enter: bool)
    requires Follows(s, d)
    ensures Follows(Commit(s, enter), Close(d))
  {
    CommitTexts(s, enter);
    CommitKeepsInv(s, enter);
    var t := Commit(s, enter);
    assert t.typing == "" && Committed(t.steps) + "" == Committed(t.steps);
  }

  lemma ClickTexts(sc: Screen, s: State, kind: string, caption: string, x: int, y: int, window: string, control: string)
    requires ClickKindKnown(kind)
    ensures Committed(AddClick(sc, s, kind, caption, x, y, window, control).steps) == Committed(s.steps)
  {
    CommittedSnoc(s.steps, ClickStep(sc, s.nextOrd + 1, kind, caption, x, y, window, control));
    ClickStepText(sc, s.nextOrd + 1, kind, caption, x, y, window, control);
    assert Committed(s.steps) + "" == Committed(s.steps);
  }

  lemma ClickFollows(sc: Screen, s: State, d: Editor, kind: string, caption: string, x: int, y: int, window: string, control: string)
    requires Follows(s, d) && ClickKindKnown(kind)
    ensures Follows(AddClick(sc, s, kind, caption, x, y, window, control), d)
  {
    ClickTexts(sc, s, kind, caption, x, y, window, control);
    ClickKeepsInv(sc, s, kind, caption, x, y, window, control);
  }

  lemma ApplyFollows(sc: Screen, s: State, d: Editor, e: Event)
    requires Follows(s, d) && NoSecrets([e])
    ensures Follows(Apply(sc, s, e), Edit(d, e))
  {
    assert [e][0] == e;
    match e
    case Start(_, _) =>
    case Stop => CommitFollows(s, d, false);
    case Discard =>
    case Click(_, _, _, _) => ClickEventFollows(sc, s, d, e);
    case ClickKind(_, _, _, _, _) => ClickEventFollows(sc, s, d, e);
    case Key(vk, ch, now) => KeyFollows(s, d, vk, ch, now);
    case Focus(_, _, _) =>
    case Poll(_) => CommitFollows(s, d, false);
  }

  lemma ClickEventFollows(sc: Screen, s: State, d: Editor, e: Event)
    requires Follows(s, d) && (e.Click? || (e.ClickKind? && ClickKindKnown(e.kind)))
    ensures Follows(Apply(sc, s, e), Edit(d, e))
  {
    if s.recording {
      CommitFollows(s, d, false);
      if e.Click? {
        var t := Commit(s, false).(control := e.control, window := e.window);
        ClickFollows(sc, t, Close(d), "click", ClickLabel(e.window, e.control), e.x, e.y, e.window, e.control);
      } else {
        ClickFollows(sc, Commit(s, false), Close(d), e.kind, ClickKindLabel(e.kind, e.window, e.control), e.x, e.y, e.window, e.control);
      }
    }
  }

  lemma KeyFollows(s: State, d: Editor, vk: nat, ch: string, now: nat)
    requires Follows(s, d)
    ensures Follows(KeyDown(s, vk, ch, now), Edit(d, Key(vk, ch, now)))
  {
    if s.recording {
      if vk == KEY_F9 || vk == KEY_ESCAPE || vk == KEY_ENTER {
        CommitFollows(s, d, vk == KEY_ENTER);
      } else if vk == KEY_BACKSPACE {
        if s.typing != "" {
          DropLast(Committed(s.steps), s.typing);
        }
      } else if ch != "" {
        assert Committed(s.steps) + (s.typing + ch) == Committed(s.steps) + s.typing + ch;
      }
    }
  }

  lemma DropLast(a: string, b: string)
    requires b != ""
    ensures (a + b)[..|a + b| - 1] == a + b[..|b| - 1]
  {
  }

  /** Without password fields the committed texts followed by the buffer are the keyed text,
      where backspace reaches only into the burst not yet committed. */
  lemma {:induction false} RecordedTextIsTypedText(sc: Screen, es: seq<Event>)
    requires NoSecrets(es)
    ensures Follows(Run(sc, Idle([]), es), EditAll(Editor("", 0, None, false), es))
  {
    if es != [] {
      var n := |es| - 1;
      RecordedTextIsTypedText(sc, es[..n]);
      assert NoSecrets([es[n]]);
      ApplyFollows(sc, Run(sc, Idle([]), es[..n]), EditAll(Editor("", 0, None, false), es[..n]), es[n]);
    }
  }

  /** Typing that is still buffered when a password field gets the focus is not recorded: the
      commit that follows carries no text. */
  lemma BufferBeforePasswordIsDropped(sc: Screen, s: State, window: string, control: string)
    requires s.recording && s.typing != "" && !s.isPassword
    ensures var t := Run(sc, s, [Focus(window, control, true), Stop]);
            |t.steps| == |s.steps| + 1 && t.typing == "" && TextOf(t.steps[|s.steps|]) == ""
  {
    var es := [Focus(window, control, true), Stop];
    assert es[..1] == [es[0]] && [es[0]][..0] == [];
    var focused := Apply(sc, s, es[0]);
    assert Run(sc, s, [es[0]]) == focused && focused.isPassword;
    assert Run(sc, s, es) == Apply(sc, focused, Stop) == Commit(focused, false).(recording := false);
    TypedStepText(focused, false);
  }

  // ------------------------------------------------------------- which characters are recorded

  /** What becomes of every character keyed in a run: `kept` are those of the bursts committed
      with the flag clear, in order; `open` those in the buffer. All others are gone: keyed with
      the flag set, erased, committed with the flag set, or forgotten. */
  datatype Fate = Fate(kept: string, open: string, secret: bool, live: bool, last: Option<nat>)

  function CommitFate(f: Fate): Fate {
    if f.open == "" && !f.secret then f
    else Fate(f.kept + if f.secret then "" else f.open, "", false, f.live, None)
  }

  function NextFate(f: Fate, e: Event): Fate {
    match e
    case Start(title, _) => if Trim(title) == "" then f else Fate("", "", false, true, None)
    case Stop => if f.live then CommitFate(f).(live := false) else f
    case Discard => Fate("", "", false, false, None)
    case Click(_, _, _, _) => if f.live then CommitFate(f) else f
    case ClickKind(_, _, _, _, _) => if f.live then CommitFate(f) else f
    case Key(vk, ch, now) =>
      if vk == KEY_F9 || vk == KEY_ESCAPE then if f.live then CommitFate(f).(live := false) else f
      else if !f.live then f
      else if vk == KEY_ENTER then CommitFate(f)
      else if vk == KEY_BACKSPACE then if f.secret || f.open == "" then f else f.(open := f.open[..|f.open| - 1])
      else if ch == "" then f
      else f.(open := if f.secret then f.open else f.open + ch, last := Some(now))
    case Focus(_, _, isPassword) => if f.live then f.(secret := f.secret || isPassword) else f
    case Poll(now) =>
      if (f.open != "" || f.secret) && f.last.Some? && now >= f.last.value + IDLE_MS then CommitFate(f) else f
  }

  function FateOf(es: seq<Event>): Fate {
    if es == [] then Fate("", "", false, false, None) else NextFate(FateOf(es[..|es| - 1]), es[|es| - 1])
  }

  ghost predicate Shares(s: State, f: Fate) {
    && Committed(s.steps) == f.kept && s.typing == f.open && s.isPassword == f.secret
    && s.recording == f.live && s.lastTypeAt == f.last
  }

  lemma CommitShares(s: State, f: Fate, enter: bool)
    requires Shares(s, f)
    ensures Shares(Commit(s, enter), CommitFate(f))
  {
    CommitTexts(s, enter);
  }

  lemma ClickShares(sc: Screen, s: State, f: Fate, e: Event)
    requires Shares(s, f) && (e.Click? || (e.ClickKind? && ClickKindKnown(e.kind)))
    ensures Shares(Apply(sc, s, e), NextFate(f, e))
  {
    if s.recording {
      CommitShares(s, f, false);
      if e.Click? {
        var t := Commit(s, false).(control := e.control, window := e.window);
        ClickTexts(sc, t, "click", ClickLabel(e.window, e.control), e.x, e.y, e.window, e.control);
      } else {
        ClickTexts(sc, Commit(s, false), e.kind, ClickKindLabel(e.kind, e.window, e.control), e.x, e.y, e.window, e.control);
      }
    }
  }

  lemma KeyShares(s: State, f: Fate, vk: nat, ch: string, now: nat)
    requires Shares(s, f)
    ensures Shares(KeyDown(s, vk, ch, now), NextFate(f, Key(vk, ch, now)))
  {
    if vk == KEY_F9 || vk == KEY_ESCAPE || vk == KEY_ENTER {
      CommitShares(s, f, vk == KEY_ENTER);
    }
  }

  lemma EventShares(sc: Screen, s: State, f: Fate, e: Event)
    requires Shares(s, f) && (e.ClickKind? ==> ClickKindKnown(e.kind))
    ensures Shares(Apply(sc, s, e), NextFate(f, e))
  {
    match e
    case Key(vk, ch, now) => KeyShares(s, f, vk, ch, now);
    case Click(_, _, _, _) => ClickShares(sc, s, f, e);
    case ClickKind(_, _, _, _, _) => ClickShares(sc, s, f, e);
    case _ => CommitShares(s, f, false);
  }

  /** For every run of events, password fields or not: the texts in the steps are exactly the
      characters keyed and committed with the flag clear. */
  lemma {:induction false} ExactlyClearTextIsRecorded(sc: Screen, es: seq<Event>)
    requires forall i | 0 <= i < |es| && es[i].ClickKind? :: ClickKindKnown(es[i].kind)
    ensures Shares(Run(sc, Idle([]), es), FateOf(es))
  {
    if es != [] {
      var n := |es| - 1;
      ExactlyClearTextIsRecorded(sc, es[..n]);
      EventShares(sc, Run(sc, Idle([]), es[..n]), FateOf(es[..n]), es[n]);
    }
  }

  /** The events inside a burst: they commit nothing. */
  predicate Inside(s: State, e: Event) {
    || e.Focus?
    || (e.Key? && e.vk !in {KEY_F9, KEY_ESCAPE, KEY_ENTER})
    || (e.Poll? && !IdleLongEnough(s, e.now))
  }

  predicate Burst(sc: Screen, s: State, es: seq<Event>) {
    es == [] || (Burst(sc, s, es[..|es| - 1]) && Inside(Run(sc, s, es[..|es| - 1]), es[|es| - 1]))
  }

  /** The events that end a burst. */
  predicate Closes(s: State, e: Event) {
    match e
    case Stop => true
    case Click(_, _, _, _) => true
    case ClickKind(_, _, _, _, _) => true
    case Key(vk, _, _) => vk in {KEY_F9, KEY_ESCAPE, KEY_ENTER}
    case Poll(now) => IdleLongEnough(s, now)
    case _ => false
  }

  /** A key's character is added; backspace takes the last one away. */
  function Keyed(text: string, e: Event): string {
    if !e.Key? then text
    else if e.vk != KEY_BACKSPACE then text + e.ch
    else if text == "" then "" else text[..|text| - 1]
  }

  /** All characters of a burst, whatever has the focus. */
  function Typed(text: string, es: seq<Event>): string {
    if es == [] then text else Keyed(Typed(text, es[..|es| - 1]), es[|es| - 1])
  }

  predicate SecretWithin(es: seq<Event>) {
    exists i | 0 <= i < |es| :: es[i].Focus? && es[i].isPassword
  }

  lemma InsideStep(sc: Screen, t: State, e: Event)
    requires t.recording && Inside(t, e)
    ensures var z := Apply(sc, t, e);
            && z.recording && z.steps == t.steps && (z.isPassword <==> t.isPassword || (e.Focus? && e.isPassword))
            && (!z.isPassword ==> z.typing == Keyed(t.typing, e))
  {
  }

  /** Within a burst the flag is only ever set. */
  lemma {:induction false} BurstSoFar(sc: Screen, s: State, es: seq<Event>)
    requires s.recording && Burst(sc, s, es)
    ensures var t := Run(sc, s, es);
            && t.recording && t.steps == s.steps && (t.isPassword <==> s.isPassword || SecretWithin(es))
            && (!t.isPassword ==> t.typing == Typed(s.typing, es))
  {
    if es != [] {
      var n := |es| - 1;
      BurstSoFar(sc, s, es[..n]);
      InsideStep(sc, Run(sc, s, es[..n]), es[n]);
      SecretSnoc(es);
    }
  }

  lemma SecretSnoc(es: seq<Event>)
    requires es != []
    ensures var n := |es| - 1;
            SecretWithin(es) <==> SecretWithin(es[..n]) || (es[n].Focus? && es[n].isPassword)
  {
    var n := |es| - 1;
    if SecretWithin(es[..n]) {
      var i :| 0 <= i < n && es[..n][i].Focus? && es[..n][i].isPassword;
      assert es[i].Focus? && es[i].isPassword;
    }
    if i :| 0 <= i < |es| && es[i].Focus? && es[i].isPassword {
      assert i == n || es[..n][i] == es[i];
    }
  }

  /** Which characters reach a step: when a burst ends, its step holds every character of it that
      was not erased if no password field had the focus at any time in it, and none otherwise,
      not even those keyed before. Without either there is no typing step. */
  lemma BurstText(sc: Screen, s: State, es: seq<Event>, e: Event)
    requires s.recording && Burst(sc, s, es) && Closes(Run(sc, s, es), e)
    ensures var z := Apply(sc, Run(sc, s, es), e);
            var secret := s.isPassword || SecretWithin(es);
            var clicks := if e.Click? || e.ClickKind? then 1 else 0;
            if !secret && Typed(s.typing, es) == "" then |z.steps| == |s.steps| + clicks
            else
              && |z.steps| == |s.steps| + 1 + clicks && z.steps[|s.steps|].kind == "type"
              && TextOf(z.steps[|s.steps|]) == if secret then "" else Typed(s.typing, es)
  {
    BurstSoFar(sc, s, es);
    var t := Run(sc, s, es);
    var enter := e.Key? && e.vk == KEY_ENTER;
    TypedStepText(t, enter);
    var c := Commit(t, enter);
    assert CommitDue(t) ==> c.steps == s.steps + [TypedStep(t, enter)];
    assert Apply(sc, t, e).steps == if e.Click? || e.ClickKind? then c.steps + [Apply(sc, t, e).steps[|c.steps|]] else c.steps;
  }

  /** Every commit clears the flag while the field keeps the focus. A pause of half a second
      while a password is typed is enough: what is keyed after it is recorded in clear. */
  lemma PauseExposesTheRest(sc: Screen, s: State, window: string, control: string, a: string, b: string, now: nat, later: nat)
    requires s.recording && a != "" && b != "" && later >= now + IDLE_MS
    ensures var paused := Apply(sc, Apply(sc, Apply(sc, s, Focus(window, control, true)), Key(0, a, now)), Poll(later));
            var t := Apply(sc, Apply(sc, paused, Key(0, b, later)), Stop);
            && |paused.steps| == |s.steps| + 1 && TextOf(paused.steps[|s.steps|]) == ""
            && |t.steps| == |s.steps| + 2 && TextOf(t.steps[|s.steps| + 1]) == b
  {
    var keyed := Apply(sc, Apply(sc, s, Focus(window, control, true)), Key(0, a, now));
    var paused := Apply(sc, keyed, Poll(later));
    assert paused == Commit(keyed, false);
    TypedStepText(keyed, false);
    KeyedInClear(sc, paused, b, later);
  }

  lemma KeyedInClear(sc: Screen, s: State, b: string, now: nat)
    requires s.recording && b != "" && !s.isPassword && s.typing == ""
    ensures var t := Apply(sc, Apply(sc, s, Key(0, b, now)), Stop);
            |t.steps| == |s.steps| + 1 && TextOf(t.steps[|s.steps|]) == b
  {
    var keyed := Apply(sc, s, Key(0, b, now));
    assert keyed.typing == "" + b == b;
    assert Apply(sc, keyed, Stop) == Commit(keyed, false).(recording := false);
    assert Commit(keyed, false).steps == s.steps + [TypedStep(keyed, false)];
    TypedStepText(keyed, false);
  }
}
