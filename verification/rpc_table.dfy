/** The extension bridge's waiter table: calls register a one-shot channel under their
    request id, replies are matched by id, and calls give up on a timeout. Each step is what
    one thread does while it holds the table's lock, or one look at its own channel. */
module RpcTable {
  import opened Common

  type Id = string

  datatype Reply = Reply(id: Id, ok: bool, value: Option<string>, error: Option<string>)

  datatype Outcome = Success(value: Option<string>) | Refused(error: Option<string>) | SendFailed | TimedOut | Disconnected

  /** Registered, but its request is not out yet; waiting on its channel; past its deadline
      and about to take the lock; finished. */
  datatype Phase = Registered | Waiting | Expired | Done(outcome: Outcome)

  /** `inbox` is the reply in the call's channel, as an index into the replies so far; `born`
      counts the replies that had arrived when the call registered. */
  datatype Call = Call(id: Id, phase: Phase, inbox: Option<nat>, born: nat)

  /** The table holds for an id the call whose sender it is. */
  datatype State = State(table: map<Id, nat>, calls: seq<Call>, replies: seq<Reply>)

  const START: State := State(map[], [], [])

  datatype Step =
    | Register(id: Id)
    | Send(k: nat, ok: bool)
    | Answer(reply: Reply)
    | Receive(k: nat)
    | SeeHangUp(k: nat)
    | Expire(k: nat)
    | GiveUp(k: nat)

  predicate Holds(s: State, k: nat) {
    exists id | id in s.table :: s.table[id] == k
  }

  /** A deadline may pass while a reply is on its way into the channel, so `Expire` does not
      look at the channel. A receiver sees the hang-up once its channel is empty and its
      sender is gone from the table. */
  predicate Enabled(s: State, e: Step) {
    match e
    case Register(_) => true
    case Send(k, _) => k < |s.calls| && s.calls[k].phase.Registered?
    case Answer(_) => true
    case Receive(k) => k < |s.calls| && s.calls[k].phase.Waiting? && s.calls[k].inbox.Some? && s.calls[k].inbox.value < |s.replies|
    case SeeHangUp(k) => k < |s.calls| && s.calls[k].phase.Waiting? && s.calls[k].inbox.None? && !Holds(s, k)
    case Expire(k) => k < |s.calls| && s.calls[k].phase.Waiting?
    case GiveUp(k) => k < |s.calls| && s.calls[k].phase.Expired?
  }

  function Enter(s: State, k: nat, phase: Phase): State
    requires k < |s.calls|
  {
    s.(calls := s.calls[k := s.calls[k].(phase := phase)])
  }

  function Verdict(reply: Reply): Outcome {
    if reply.ok then Success(reply.value) else Refused(reply.error)
  }

  function Next(s: State, e: Step): State
    requires Enabled(s, e)
  {
    match e
    case Register(id) =>
      s.(table := s.table[id := |s.calls|], calls := s.calls + [Call(id, Registered, None, |s.replies|)])
    case Send(k, ok) => Enter(s, k, if ok then Waiting else Done(SendFailed))
    case Answer(reply) =>
      var heard := s.(replies := s.replies + [reply]);
      if reply.id !in s.table || s.table[reply.id] >= |s.calls| then heard
      else
        var k := s.table[reply.id];
        heard.(table := s.table - {reply.id}, calls := s.calls[k := s.calls[k].(inbox := Some(|s.replies|))])
    case Receive(k) => Enter(s, k, Done(Verdict(s.replies[s.calls[k].inbox.value])))
    case SeeHangUp(k) => Enter(s, k, Done(Disconnected))
    case Expire(k) => Enter(s, k, Expired)
    case GiveUp(k) => Enter(s, k, Done(TimedOut)).(table := s.table - {s.calls[k].id})
  }

  // ------------------------------------------------------------- what every step keeps

  /** Not answered, and either outstanding or one whose request could not be sent. */
  predicate Open(c: Call) {
    c.inbox.None? && (c.phase.Registered? || c.phase.Waiting? || c.phase.Expired? || c.phase == Done(SendFailed))
  }

  /** An entry belongs to an open call with that id, and to the newest one. */
  ghost predicate TableOk(s: State) {
    forall id | id in s.table ::
      && s.table[id] < |s.calls|
      && s.calls[s.table[id]].id == id
      && Open(s.calls[s.table[id]])
      && forall j | s.table[id] < j < |s.calls| :: s.calls[j].id != id
  }

  /** What is in a channel carries its call's id and came after the call. */
  predicate OwnReply(s: State, c: Call) {
    c.born <= |s.replies| && (c.inbox.Some? ==> c.born <= c.inbox.value < |s.replies| && s.replies[c.inbox.value].id == c.id)
  }

  /** A verdict is that of the reply in the channel. */
  predicate OwnVerdict(s: State, c: Call) {
    c.phase.Done? && (c.phase.outcome.Success? || c.phase.outcome.Refused?)
    ==> c.inbox.Some? && c.inbox.value < |s.replies| && c.phase.outcome == Verdict(s.replies[c.inbox.value])
  }

  ghost predicate CallsOk(s: State) {
    forall k | 0 <= k < |s.calls| :: OwnReply(s, s.calls[k]) && OwnVerdict(s, s.calls[k])
  }

  /** No reply is in two channels. */
  ghost predicate RepliesOk(s: State) {
    forall j, k | 0 <= j < k < |s.calls| && s.calls[j].inbox.Some? :: s.calls[j].inbox != s.calls[k].inbox
  }

  ghost predicate Inv(s: State) {
    TableOk(s) && CallsOk(s) && RepliesOk(s)
  }

  lemma TableStep(s: State, e: Step)
    requires Inv(s) && Enabled(s, e)
    ensures TableOk(Next(s, e))
  {
    var t := Next(s, e);
    forall id | id in t.table
      ensures t.table[id] < |t.calls| && t.calls[t.table[id]].id == id && Open(t.calls[t.table[id]])
      ensures forall j | t.table[id] < j < |t.calls| :: t.calls[j].id != id
    {
    }
  }

  lemma CallsStep(s: State, e: Step)
    requires Inv(s) && Enabled(s, e)
    ensures CallsOk(Next(s, e))
  {
    var t := Next(s, e);
    forall k | 0 <= k < |t.calls| ensures OwnReply(t, t.calls[k]) && OwnVerdict(t, t.calls[k]) {
      if k < |s.calls| {
        assert OwnReply(s, s.calls[k]) && OwnVerdict(s, s.calls[k]);
      }
    }
  }

  lemma RepliesStep(s: State, e: Step)
    requires Inv(s) && Enabled(s, e)
    ensures RepliesOk(Next(s, e))
  {
    var t := Next(s, e);
    forall j, k | 0 <= j < k < |t.calls| && t.calls[j].inbox.Some? ensures t.calls[j].inbox != t.calls[k].inbox {
      assert OwnReply(s, s.calls[j]);
      if k < |s.calls| {
        assert OwnReply(s, s.calls[k]);
      }
    }
  }

  /** `ss` are the states of a run that takes the steps `es`. */
  ghost predicate IsRun(ss: seq<State>, es: seq<Step>) {
    && |ss| == |es| + 1
    && ss[0] == START
    && forall i | 0 <= i < |es| :: Enabled(ss[i], es[i]) && ss[i + 1] == Next(ss[i], es[i])
  }

  lemma {:induction false} RunKeepsInv(ss: seq<State>, es: seq<Step>, i: nat)
    requires IsRun(ss, es) && i < |ss|
    ensures Inv(ss[i])
  {
    if i > 0 {
      RunKeepsInv(ss, es, i - 1);
      TableStep(ss[i - 1], es[i - 1]);
      CallsStep(ss[i - 1], es[i - 1]);
      RepliesStep(ss[i - 1], es[i - 1]);
    }
  }

  // ------------------------------------------------------------- what a run promises

  /** In every run, whatever the ids: a call succeeds only with a reply that carries its own
      id, said ok and arrived after the call was registered, and that no other call got. */
  lemma SuccessHasItsOwnReply(ss: seq<State>, es: seq<Step>, i: nat, k: nat)
    requires IsRun(ss, es) && i < |ss|
    requires k < |ss[i].calls| && ss[i].calls[k].phase.Done? && ss[i].calls[k].phase.outcome.Success?
    ensures var s, c := ss[i], ss[i].calls[k];
            && c.inbox.Some? && c.born <= c.inbox.value < |s.replies|
            && s.replies[c.inbox.value].id == c.id && s.replies[c.inbox.value].ok
            && c.phase.outcome == Success(s.replies[c.inbox.value].value)
            && forall j | 0 <= j < |s.calls| && j != k :: s.calls[j].inbox != c.inbox
  {
    RunKeepsInv(ss, es, i);
    var s := ss[i];
    assert OwnReply(s, s.calls[k]) && OwnVerdict(s, s.calls[k]);
  }

  /** What later steps leave of a call. */
  predicate Continues(c: Call, d: Call) {
    && c.id == d.id && c.born == d.born
    && (c.inbox.Some? ==> d.inbox == c.inbox)
    && (c.phase.Done? ==> d.phase == c.phase)
  }

  lemma CallContinues(s: State, e: Step, k: nat)
    requires Inv(s) && Enabled(s, e) && k < |s.calls|
    ensures |s.calls| <= |Next(s, e).calls| && Continues(s.calls[k], Next(s, e).calls[k])
  {
  }

  /** A call completes once: its outcome, its id and the reply it got never change again,
      whatever late or duplicate replies follow. */
  lemma {:induction false} CompletesOnce(ss: seq<State>, es: seq<Step>, i: nat, j: nat, k: nat)
    requires IsRun(ss, es) && i <= j < |ss| && k < |ss[i].calls|
    ensures k < |ss[j].calls| && Continues(ss[i].calls[k], ss[j].calls[k])
    decreases j
  {
    if i < j {
      CompletesOnce(ss, es, i, j - 1, k);
      RunKeepsInv(ss, es, j - 1);
      CallContinues(ss[j - 1], es[j - 1], k);
    }
  }

  // ------------------------------------------------------------- lost replies

  /** A waiting call whose entry is gone: a good reply to it reaches nobody, or another call. */
  predicate Stray(s: State, k: nat) {
    && k < |s.calls| && s.calls[k].phase.Waiting? && s.calls[k].inbox.None?
    && !(s.calls[k].id in s.table && s.table[s.calls[k].id] == k)
  }

  /** An unanswered call whose entry is gone. */
  predicate Unheard(s: State, k: nat) {
    k < |s.calls| && s.calls[k].inbox.None? && !(s.calls[k].id in s.table && s.table[s.calls[k].id] == k)
  }

  lemma UnheardStep(s: State, e: Step, k: nat)
    requires Inv(s) && Enabled(s, e) && Unheard(s, k)
    ensures Unheard(Next(s, e), k) && Next(s, e).calls[k].id == s.calls[k].id
  {
    if e.Answer? && e.reply.id in s.table {
      assert s.calls[s.table[e.reply.id]].id == e.reply.id;
    }
  }

  /** Such a call never hears anything again, whatever replies and registrations follow, and so
      never succeeds. */
  lemma {:induction false} StrayNeverSucceeds(ss: seq<State>, es: seq<Step>, i: nat, j: nat, k: nat)
    requires IsRun(ss, es) && i <= j < |ss| && Stray(ss[i], k)
    ensures Unheard(ss[j], k) && !(ss[j].calls[k].phase.Done? && ss[j].calls[k].phase.outcome.Success?)
    decreases j
  {
    RunKeepsInv(ss, es, j);
    if i < j {
      StrayNeverSucceeds(ss, es, i, j - 1, k);
      RunKeepsInv(ss, es, j - 1);
      UnheardStep(ss[j - 1], es[j - 1], k);
    }
    assert OwnVerdict(ss[j], ss[j].calls[k]);
  }

  /** From `s`, with no further registrations. */
  ghost predicate Leads(s: State, ss: seq<State>, es: seq<Step>) {
    && |ss| == |es| + 1 && ss[0] == s
    && forall i | 0 <= i < |es| :: !es[i].Register? && Enabled(ss[i], es[i]) && ss[i + 1] == Next(ss[i], es[i])
  }

  /** Some course of events, without any further call, leaves a waiting call without its entry. */
  ghost predicate CanLose(s: State) {
    exists ss: seq<State>, es: seq<Step>, k: nat :: Leads(s, ss, es) && Stray(ss[|es|], k)
  }

  lemma StrayLoses(s: State, k: nat)
    requires Stray(s, k)
    ensures CanLose(s)
  {
    var es: seq<Step> := [];
    assert Leads(s, [s], es) && Stray([s][|es|], k);
  }

  lemma LosesLater(s: State, e: Step)
    requires Enabled(s, e) && !e.Register? && CanLose(Next(s, e))
    ensures CanLose(s)
  {
    var ss: seq<State>, es: seq<Step>, k: nat :| Leads(Next(s, e), ss, es) && Stray(ss[|es|], k);
    var ss', es' := [s] + ss, [e] + es;
    assert ss'[|es'|] == ss[|es|];
    forall i | 0 <= i < |es'| ensures !es'[i].Register? && Enabled(ss'[i], es'[i]) && ss'[i + 1] == Next(ss'[i], es'[i]) {
      if i > 0 {
        assert es'[i] == es[i - 1] && ss'[i] == ss[i - 1];
      }
    }
    assert Leads(s, ss', es');
  }

  predicate Unfinished(c: Call) {
    !c.phase.Done?
  }

  /** Unanswered, and still going to look at its channel. */
  predicate Pending(c: Call) {
    c.inbox.None? && (c.phase.Registered? || c.phase.Waiting?)
  }

  function Rank(c: Call): nat {
    match c.phase
    case Registered => 3
    case Waiting => 2
    case Expired => 1
    case Done(_) => 0
  }

  /** Two calls with one id, one unfinished and one pending: the first can run into its deadline
      and take the other's entry away. */
  lemma ClashLoses(s: State, j: nat, k: nat)
    requires j < |s.calls| && k < |s.calls| && j != k && s.calls[j].id == s.calls[k].id
    requires Unfinished(s.calls[j]) && Pending(s.calls[k])
    ensures CanLose(s)
    decreases Rank(s.calls[j]) + Rank(s.calls[k])
  {
    var e := if s.calls[k].phase.Registered? then Send(k, true)
             else if s.calls[j].phase.Registered? then Send(j, true)
             else if s.calls[j].phase.Waiting? then Expire(j) else GiveUp(j);
    var t := Next(s, e);
    if e.GiveUp? {
      StrayLoses(t, k);
    } else {
      ClashLoses(t, j, k);
    }
    LosesLater(s, e);
  }

  /** Every pending call owns the entry at its id and shares it with no unfinished call. */
  ghost predicate Safe(s: State) {
    && (forall k | 0 <= k < |s.calls| && Pending(s.calls[k]) :: s.calls[k].id in s.table && s.table[s.calls[k].id] == k)
    && forall j, k | 0 <= j < |s.calls| && 0 <= k < |s.calls| && Unfinished(s.calls[j]) && Pending(s.calls[k]) ::
         s.calls[j].id == s.calls[k].id ==> j == k
  }

  lemma NoneRevives(s: State, e: Step, k: nat)
    requires Inv(s) && Enabled(s, e) && !e.Register? && k < |s.calls|
    ensures var t := Next(s, e);
            && |t.calls| == |s.calls| && t.calls[k].id == s.calls[k].id
            && (Unfinished(t.calls[k]) ==> Unfinished(s.calls[k]))
            && (Pending(t.calls[k]) ==> Pending(s.calls[k]))
  {
  }

  lemma PendingKeepsEntry(s: State, e: Step, k: nat)
    requires Inv(s) && Enabled(s, e) && Safe(s) && !e.Register?
    requires k < |s.calls| && Pending(s.calls[k]) && k < |Next(s, e).calls| && Pending(Next(s, e).calls[k])
    ensures s.calls[k].id in Next(s, e).table && Next(s, e).table[s.calls[k].id] == k
  {
  }

  lemma SafeStep(s: State, e: Step)
    requires Inv(s) && Enabled(s, e) && Safe(s) && !e.Register?
    ensures Safe(Next(s, e))
  {
    var t := Next(s, e);
    forall k | 0 <= k < |s.calls|
      ensures |t.calls| == |s.calls| && t.calls[k].id == s.calls[k].id
      ensures Unfinished(t.calls[k]) ==> Unfinished(s.calls[k])
      ensures Pending(t.calls[k]) ==> Pending(s.calls[k]) && s.calls[k].id in t.table && t.table[s.calls[k].id] == k
    {
      NoneRevives(s, e, k);
      if Pending(t.calls[k]) {
        PendingKeepsEntry(s, e, k);
      }
    }
    if s.calls == [] {
      assert t.calls == [];
    }
  }

  lemma {:induction false} SafeForGood(s: State, ss: seq<State>, es: seq<Step>, i: nat)
    requires Inv(s) && Safe(s) && Leads(s, ss, es) && i <= |es|
    ensures Inv(ss[i]) && Safe(ss[i])
  {
    if i > 0 {
      SafeForGood(s, ss, es, i - 1);
      TableStep(ss[i - 1], es[i - 1]);
      CallsStep(ss[i - 1], es[i - 1]);
      RepliesStep(ss[i - 1], es[i - 1]);
      SafeStep(ss[i - 1], es[i - 1]);
    }
  }

  lemma LosesExactlyIfUnsafe(s: State)
    requires Inv(s)
    ensures CanLose(s) <==> !Safe(s)
  {
    if Safe(s) && CanLose(s) {
      var ss: seq<State>, es: seq<Step>, k: nat :| Leads(s, ss, es) && Stray(ss[|es|], k);
      SafeForGood(s, ss, es, |es|);
      assert Pending(ss[|es|].calls[k]);
    }
    if !Safe(s) {
      UnsafeLoses(s);
    }
  }

  lemma UnsafeLoses(s: State)
    requires Inv(s) && !Safe(s)
    ensures CanLose(s)
  {
    if k :| 0 <= k < |s.calls| && Pending(s.calls[k]) && !(s.calls[k].id in s.table && s.table[s.calls[k].id] == k) {
      if s.calls[k].phase.Registered? {
        StrayLoses(Next(s, Send(k, true)), k);
        LosesLater(s, Send(k, true));
      } else {
        StrayLoses(s, k);
      }
    } else {
      var j, k :| 0 <= j < |s.calls| && 0 <= k < |s.calls| && Unfinished(s.calls[j]) && Pending(s.calls[k])
                  && s.calls[j].id == s.calls[k].id && j != k;
      ClashLoses(s, j, k);
    }
  }

  ghost predicate HeldByUnfinishedCall(s: State, id: Id) {
    exists k :: 0 <= k < |s.calls| && Unfinished(s.calls[k]) && s.calls[k].id == id
  }

  lemma RegisterSafe(s: State, id: Id)
    requires Inv(s) && Safe(s)
    ensures Safe(Next(s, Register(id))) <==> !HeldByUnfinishedCall(s, id)
  {
    var t := Next(s, Register(id));
    if HeldByUnfinishedCall(s, id) {
      var k :| 0 <= k < |s.calls| && Unfinished(s.calls[k]) && s.calls[k].id == id;
      assert t.calls[k] == s.calls[k] && Pending(t.calls[|s.calls|]);
    } else {
      forall k | 0 <= k < |t.calls| && Pending(t.calls[k])
        ensures t.calls[k].id in t.table && t.table[t.calls[k].id] == k
      {
        assert k < |s.calls| ==> Unfinished(s.calls[k]);
      }
    }
  }

  /** Where no reply can be lost, a registration makes a loss possible if and only if an
      unfinished call holds its id, answered or not. A finished call may still have an entry
      there, after a failed send, and does no harm. */
  lemma RegistrationEndangers(s: State, id: Id)
    requires Inv(s) && !CanLose(s)
    ensures CanLose(Next(s, Register(id))) <==> HeldByUnfinishedCall(s, id)
  {
    var t := Next(s, Register(id));
    TableStep(s, Register(id));
    CallsStep(s, Register(id));
    RepliesStep(s, Register(id));
    LosesExactlyIfUnsafe(s);
    LosesExactlyIfUnsafe(t);
    RegisterSafe(s, id);
  }

  /** So in a whole run no reply to a waiting call can be lost, if and only if no call registers
      under an id that an unfinished call holds. */
  lemma {:induction false} NoReplyIsLost(ss: seq<State>, es: seq<Step>, n: nat)
    requires IsRun(ss, es) && n < |ss|
    ensures (forall i | 0 <= i <= n :: !CanLose(ss[i]))
            <==> (forall i | 0 <= i < n && es[i].Register? :: !HeldByUnfinishedCall(ss[i], es[i].id))
  {
    if n == 0 {
      LosesExactlyIfUnsafe(START);
    } else {
      NoReplyIsLost(ss, es, n - 1);
      RunKeepsInv(ss, es, n - 1);
      if !CanLose(ss[n - 1]) {
        OneStepLoss(ss[n - 1], es[n - 1]);
        assert ss[n] == Next(ss[n - 1], es[n - 1]);
      }
    }
  }

  lemma OneStepLoss(s: State, e: Step)
    requires Inv(s) && Enabled(s, e) && !CanLose(s)
    ensures CanLose(Next(s, e)) <==> e.Register? && HeldByUnfinishedCall(s, e.id)
  {
    if e.Register? {
      RegistrationEndangers(s, e.id);
    } else if CanLose(Next(s, e)) {
      LosesLater(s, e);
    }
  }

  /** Where no reply can be lost, a reply reaches the waiting call with its id, and that call
      then completes with it. */
  lemma ReplyReachesItsCall(s: State, k: nat, reply: Reply)
    requires Inv(s) && !CanLose(s)
    requires k < |s.calls| && s.calls[k].phase.Waiting? && s.calls[k].inbox.None? && s.calls[k].id == reply.id
    ensures var t := Next(s, Answer(reply));
            && t.table == s.table - {reply.id}
            && (forall j | 0 <= j < |s.calls| && j != k :: t.calls[j] == s.calls[j])
            && Enabled(t, Receive(k)) && !Enabled(t, SeeHangUp(k))
            && Next(t, Receive(k)).calls[k].phase == Done(Verdict(reply))
  {
    LosesExactlyIfUnsafe(s);
    assert Pending(s.calls[k]);
  }

  // ------------------------------------------------------------- the table's keys

  ghost predicate DistinctIds(s: State) {
    forall j, k | 0 <= j < k < |s.calls| :: s.calls[j].id != s.calls[k].id
  }

  ghost predicate Owned(s: State) {
    forall k | 0 <= k < |s.calls| && Open(s.calls[k]) :: s.calls[k].id in s.table && s.table[s.calls[k].id] == k
  }

  lemma OwnedStep(s: State, e: Step)
    requires Inv(s) && Enabled(s, e) && Owned(s) && DistinctIds(Next(s, e))
    ensures Owned(Next(s, e))
  {
    var t := Next(s, e);
    forall k | 0 <= k < |t.calls| && Open(t.calls[k])
      ensures t.calls[k].id in t.table && t.table[t.calls[k].id] == k
    {
      if k < |s.calls| {
        CallContinues(s, e, k);
        OpenBefore(s, e, k);
        if e.GiveUp? {
          CallContinues(s, e, e.k);
          assert t.calls[e.k].id != t.calls[k].id;
        } else if e.Register? {
          assert t.calls[k].id != t.calls[|s.calls|].id;
        }
      }
    }
  }

  lemma OpenBefore(s: State, e: Step, k: nat)
    requires Inv(s) && Enabled(s, e) && k < |s.calls| && k < |Next(s, e).calls| && Open(Next(s, e).calls[k])
    ensures Open(s.calls[k]) && (e.GiveUp? ==> e.k != k)
  {
  }

  lemma {:induction false} Registration(ss: seq<State>, es: seq<Step>, n: nat, k: nat) returns (a: nat)
    requires IsRun(ss, es) && n < |ss| && k < |ss[n].calls|
    ensures a < n && es[a].Register? && es[a].id == ss[n].calls[k].id && k == |ss[a].calls|
  {
    a := n - 1;
    if k < |ss[n - 1].calls| {
      RunKeepsInv(ss, es, n - 1);
      CallContinues(ss[n - 1], es[n - 1], k);
      a := Registration(ss, es, n - 1, k);
    }
  }

  predicate DistinctRegistrations(es: seq<Step>) {
    forall a, b | 0 <= a < b < |es| && es[a].Register? && es[b].Register? :: es[a].id != es[b].id
  }

  lemma IdsAreDistinct(ss: seq<State>, es: seq<Step>, n: nat)
    requires IsRun(ss, es) && n < |ss| && DistinctRegistrations(es)
    ensures DistinctIds(ss[n])
  {
    forall j, k | 0 <= j < k < |ss[n].calls| ensures ss[n].calls[j].id != ss[n].calls[k].id {
      var a := Registration(ss, es, n, j);
      var b := Registration(ss, es, n, k);
    }
  }

  lemma {:induction false} RunKeepsOwned(ss: seq<State>, es: seq<Step>, i: nat)
    requires IsRun(ss, es) && i < |ss| && DistinctRegistrations(es)
    ensures Owned(ss[i])
  {
    if i > 0 {
      RunKeepsOwned(ss, es, i - 1);
      RunKeepsInv(ss, es, i - 1);
      IdsAreDistinct(ss, es, i);
      OwnedStep(ss[i - 1], es[i - 1]);
    }
  }

  /** With distinct ids the keys are, at every moment of every run, the ids of the outstanding
      unanswered calls and of the unanswered calls whose request was never sent. */
  lemma KeysAreTheOpenCalls(ss: seq<State>, es: seq<Step>, i: nat, id: Id)
    requires IsRun(ss, es) && i < |ss| && DistinctRegistrations(es)
    ensures id in ss[i].table <==> exists k :: 0 <= k < |ss[i].calls| && Open(ss[i].calls[k]) && ss[i].calls[k].id == id
  {
    RunKeepsOwned(ss, es, i);
    RunKeepsInv(ss, es, i);
    if id in ss[i].table {
      assert Open(ss[i].calls[ss[i].table[id]]);
    }
  }

  lemma OlderTimeoutFirstHalf(id: Id) returns (s3: State, s5: State)
    ensures s3 == State(map[id := 0], [Call(id, Expired, None, 0)], [])
    ensures s5 == State(map[id := 1], [Call(id, Expired, None, 0), Call(id, Waiting, None, 0)], [])
    ensures s3 == Next(Next(Next(START, Register(id)), Send(0, true)), Expire(0))
    ensures s5 == Next(Next(s3, Register(id)), Send(1, true))
  {
    s3 := Next(Next(Next(START, Register(id)), Send(0, true)), Expire(0));
    s5 := Next(Next(s3, Register(id)), Send(1, true));
  }

  lemma OlderTimeoutSecondHalf(id: Id, reply: Reply, s5: State) returns (s8: State)
    requires reply.id == id && s5 == State(map[id := 1], [Call(id, Expired, None, 0), Call(id, Waiting, None, 0)], [])
    ensures Enabled(Next(Next(s5, GiveUp(0)), Answer(reply)), SeeHangUp(1))
    ensures s8 == Next(Next(Next(s5, GiveUp(0)), Answer(reply)), SeeHangUp(1))
    ensures s8 == State(map[], [Call(id, Done(TimedOut), None, 0), Call(id, Done(Disconnected), None, 0)], [reply])
  {
    var s6 := Next(s5, GiveUp(0));
    assert s6 == State(map[], [Call(id, Done(TimedOut), None, 0), Call(id, Waiting, None, 0)], []);
    var s7 := Next(s6, Answer(reply));
    s8 := Next(s7, SeeHangUp(1));
  }

  /** Ids come from a clock, so two calls can carry one id. The timeout of the older call then
      takes away the waiter of the newer one: a good reply to the newer call is dropped and it
      ends as disconnected. */
  lemma OlderTimeoutDropsNewerWaiter(id: Id, value: Option<string>) returns (ss: seq<State>, es: seq<Step>)
    ensures IsRun(ss, es) && |ss| == 9 && |es| == 8 && es[6] == Answer(Reply(id, true, value, None))
    ensures |ss[8].calls| == 2 && ss[8].calls[1] == Call(id, Done(Disconnected), None, 0)
  {
    var s3, s5 := OlderTimeoutFirstHalf(id);
    var reply := Reply(id, true, value, None);
    var s8 := OlderTimeoutSecondHalf(id, reply, s5);
    var s1 := Next(START, Register(id));
    var s4 := Next(s3, Register(id));
    var s6 := Next(s5, GiveUp(0));
    es := [Register(id), Send(0, true), Expire(0), Register(id), Send(1, true), GiveUp(0), Answer(reply), SeeHangUp(1)];
    ss := [START, s1, Next(s1, Send(0, true)), s3, s4, s5, s6, Next(s6, Answer(reply)), s8];
  }

  // ------------------------------------------------------------- the objects

  /** A subscriber's channel: at most 64 commands wait in it; its reader may be gone. */
  datatype Channel<C> = Channel(queue: seq<C>, connected: bool) {
    predicate Takes() {
      connected && |queue| < 64
    }

    function Offered(cmd: C): Channel<C> {
      if Takes() then this.(queue := queue + [cmd]) else this
    }
  }

  class Hub<C> {
    var subs: seq<Channel<C>>

    constructor ()
      ensures subs == []
    {
      subs := [];
    }

    method Subscribe() returns (at: nat)
      modifies this
      ensures at == |old(subs)| && subs == old(subs) + [Channel([], true)]
    {
      at := |subs|;
      subs := subs + [Channel([], true)];
    }

    /** `native` says whether the native host's output took the command; then no subscriber
        sees it. Otherwise every channel with room gets it once, in order. */
    method Publish(cmd: C, native: bool) returns (ok: bool)
      modifies this
      ensures |subs| == |old(subs)|
      ensures forall i | 0 <= i < |subs| :: subs[i] == if native then old(subs)[i] else old(subs)[i].Offered(cmd)
      ensures ok <==> native || exists i | 0 <= i < |subs| :: old(subs)[i].Takes()
    {
      if native {
        return true;
      }
      ok := false;
      ghost var was := subs;
      for i := 0 to |subs|
        invariant |subs| == |was|
        invariant forall j | 0 <= j < |subs| :: subs[j] == if j < i then was[j].Offered(cmd) else was[j]
        invariant ok <==> exists j | 0 <= j < i :: was[j].Takes()
      {
        if subs[i].Takes() {
          ok := true;
        }
        subs := subs[i := subs[i].Offered(cmd)];
      }
    }
  }

  class Bridge {
    var table: map<Id, nat>
    var calls: seq<Call>
    var replies: seq<Reply>

    constructor ()
      ensures S() == START
    {
      table, calls, replies := map[], [], [];
    }

    ghost function S(): State
      reads this
    {
      State(table, calls, replies)
    }

    method RegisterCall(id: Id) returns (k: nat)
      modifies this
      ensures S() == Next(old(S()), Register(id)) && k == |old(calls)|
    {
      k := |calls|;
      calls := calls + [Call(id, Registered, None, |replies|)];
      table := table[id := k];
    }

    method Complete(reply: Reply)
      requires TableOk(S())
      modifies this
      ensures S() == Next(old(S()), Answer(reply))
    {
      if reply.id in table {
        var k := table[reply.id];
        table := table - {reply.id};
        calls := calls[k := calls[k].(inbox := Some(|replies|))];
      }
      replies := replies + [reply];
    }

    /** What `call` does with its channel: it takes a reply that is there; otherwise it sees
        the hang-up or, with `expired`, removes its id from the table. */
    method Settle(k: nat, expired: bool) returns (outcome: Outcome)
      requires Inv(S()) && k < |calls| && calls[k].phase.Waiting?
      requires calls[k].inbox.Some? || expired || !Holds(S(), k)
      modifies this
      ensures old(calls[k].inbox).Some? ==> S() == Next(old(S()), Receive(k))
      ensures old(calls[k].inbox).None? && expired ==> S() == Next(Next(old(S()), Expire(k)), GiveUp(k))
      ensures old(calls[k].inbox).None? && !expired ==> S() == Next(old(S()), SeeHangUp(k))
      ensures calls[k].phase == Done(outcome)
    {
      var c := calls[k];
      assert OwnReply(S(), calls[k]);
      if c.inbox.Some? {
        outcome := Verdict(replies[c.inbox.value]);
      } else if expired {
        outcome := TimedOut;
        table := table - {c.id};
      } else {
        outcome := Disconnected;
      }
      calls := calls[k := c.(phase := Done(outcome))];
    }
  }
}
