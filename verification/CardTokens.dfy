/** Safety of the card protocol over all its runs: a card never has more than
    one of an activation, an undecided message and a final change. */
module CardTokens {
  import opened Common
  import opened CardStates
  import opened CardProtocol

  /** The command of a step expects no answer. */
  predicate Silent(c: Config, step: int) {
    CommandAt(c.commands, step).Some? && !CommandAt(c.commands, step).value.expectResponse
  }

  /** Every command from the card's first one on expects an answer. */
  ghost predicate AllRespond(c: Config) {
    forall s :: s in Sequences(c.commands) && s >= c.first ==> !Silent(c, s)
  }

  function UndecidedMsgs(w: World): set<nat> {
    set i | 0 <= i < |w.msgs| && w.msgs[i].Undecided()
  }

  function DecidingHandlers(w: World): set<nat> {
    set h | h in w.handlers && w.handlers[h].Decides()
  }

  function Finals(es: seq<Change>): nat {
    if es == [] then 0 else Finals(es[..|es| - 1]) + if es[|es| - 1].status.Terminal() then 1 else 0
  }

  /** Everything that can still lead to, or already is, a final change. */
  function Tokens(w: World): nat {
    |w.acts| + |UndecidedMsgs(w)| + |DecidingHandlers(w)| + Finals(w.changes)
  }

  predicate Visited(c: Config, step: int) {
    step in Sequences(c.commands) && step >= c.first
  }

  /** The changes the protocol emits, with the counters they move. */
  predicate Shaped(c: Config, e: Change) {
    && e.card == c.card && e.campaign == c.campaign && e.statsTo == e.status
    && (e.status == InProgress ==> e.statsFrom == Pending && Visited(c, e.step))
    && (e.status == Completed ==> e.statsFrom == InProgress)
    && (e.status == Failed ==> e.statsFrom == InProgress || e.statsFrom == Pending)
    && (e.status == InProgress || e.status == Completed || e.status == Failed)
  }

  /** An object a report could be acted on belongs to a command. */
  predicate ObjectOk(c: Config, o: CardState) {
    DlrAccepted(o.status) ==> Visited(c, o.step)
  }

  ghost predicate Inv(c: Config, w: World) {
    && (forall i :: 0 <= i < |w.objs| ==> ObjectOk(c, w.objs[i]))
    && (w.cache.Some? ==> w.cache.value < |w.objs|)
    && (forall h :: h in w.handlers ==> w.handlers[h].obj < |w.objs| && Visited(c, w.objs[w.handlers[h].obj].step))
    && (forall i :: 0 <= i < |w.acts| ==> w.acts[i].step >= c.first)
    && (forall i :: 0 <= i < |w.writes| ==> w.writes[i].obj < |w.objs| && Visited(c, w.writes[i].step))
    && (forall e :: e in w.changes ==> Shaped(c, e))
  }

  // ------------------------------------------------------------------- counting

  lemma FinalsAppend(es: seq<Change>, e: Change)
    ensures Finals(es + [e]) == Finals(es) + if e.status.Terminal() then 1 else 0
  {
    assert (es + [e])[..|es|] == es;
  }

  lemma NewMessage(w: World, w': World)
    requires w'.msgs == w.msgs + [Msg(None, false)]
    ensures |UndecidedMsgs(w')| == |UndecidedMsgs(w)| + 1
  {
    assert forall i :: 0 <= i < |w.msgs| ==> w'.msgs[i] == w.msgs[i];
    assert UndecidedMsgs(w') == UndecidedMsgs(w) + {|w.msgs|};
    assert |w.msgs| !in UndecidedMsgs(w);
  }

  lemma MarkedMessage(w: World, w': World, m: nat, msg: Msg)
    requires m < |w.msgs| && w'.msgs == w.msgs[m := msg] && (msg.Undecided() ==> w.msgs[m].Undecided())
    ensures |UndecidedMsgs(w')| == |UndecidedMsgs(w)| - if w.msgs[m].Undecided() && !msg.Undecided() then 1 else 0
  {
    if w.msgs[m].Undecided() && !msg.Undecided() {
      assert UndecidedMsgs(w) == UndecidedMsgs(w') + {m};
    } else {
      assert UndecidedMsgs(w) == UndecidedMsgs(w');
    }
  }

  lemma HandlerOpened(w: World, w': World, h: nat, x: Handler)
    requires h !in w.handlers && w'.handlers == w.handlers[h := x]
    ensures |DecidingHandlers(w')| == |DecidingHandlers(w)| + if x.Decides() then 1 else 0
  {
    assert DecidingHandlers(w') == DecidingHandlers(w) + if x.Decides() then {h} else {};
  }

  lemma HandlerClosed(w: World, w': World, h: nat)
    requires h in w.handlers && w'.handlers == w.handlers - {h}
    ensures |DecidingHandlers(w')| == |DecidingHandlers(w)| - if w.handlers[h].Decides() then 1 else 0
  {
    if w.handlers[h].Decides() {
      assert DecidingHandlers(w) == DecidingHandlers(w') + {h};
    } else {
      assert DecidingHandlers(w) == DecidingHandlers(w');
    }
  }

  // --------------------------------------------------------------- building blocks

  lemma DurableOk(c: Config, w: World, row: CardState)
    requires Inv(c, w) && Durable(w, row)
    ensures ObjectOk(c, row)
  {
    if e :| e in w.changes && row == CardState(e.step, e.status, e.retry, e.transition) {
      assert Shaped(c, e);
    }
  }

  lemma FetchKeeps(c: Config, w: World, look: Lookup)
    requires Inv(c, w) && Found(w, look)
    ensures var (w1, o) := Fetch(w, look);
            && Inv(c, w1) && o < |w1.objs| && w1.cache == Some(o)
            && w1 == w.(objs := w1.objs, cache := w1.cache, misses := w1.misses)
  {
    if look.Miss? {
      DurableOk(c, w, look.row);
    }
  }

  lemma FinishKeeps(c: Config, w: World, obj: nat, status: Status, retry: int, from: Status, how: End, written: bool)
    requires Inv(c, w) && obj < |w.objs|
    requires (status == Completed && from == InProgress) || (status == Failed && (from == InProgress || from == Pending))
    ensures var w' := Finish(c, w, obj, status, retry, from, how, written);
            && Inv(c, w') && Finals(w'.changes) <= Finals(w.changes) + 1
            && w' == w.(objs := w'.objs, cache := None, changes := w'.changes, clock := w.clock + 1, end := Some(how))
  {
    var w' := Finish(c, w, obj, status, retry, from, how, written);
    if written {
      FinalsAppend(w.changes, w'.changes[|w.changes|]);
    }
  }

  lemma AdvanceKeeps(c: Config, w: World, obj: nat, step: int, written: bool)
    requires Inv(c, w) && obj < |w.objs| && step >= c.first
    ensures var w' := AdvanceOrComplete(c, w, obj, step, written);
            && Inv(c, w') && |w'.acts| + Finals(w'.changes) <= |w.acts| + Finals(w.changes) + 1
            && w'.msgs == w.msgs && w'.handlers == w.handlers
  {
    ScanAbove(c.commands, step);
    if ScanNext(c.commands, step) == -1 {
      FinishKeeps(c, w, obj, Completed, 0, InProgress, Accomplished, written);
    }
  }

  // ------------------------------------------------------------------------ steps

  lemma ActivateInv(c: Config, w: World, fate: Fate)
    requires Inv(c, w) && w.acts != []
    ensures Inv(c, ActivateStep(c, w, fate))
  {
    CommandAtFacts(c.commands, w.acts[0].step);
  }

  lemma ActivateKeeps(c: Config, w: World, fate: Fate)
    requires Inv(c, w) && w.acts != []
    ensures var w' := ActivateStep(c, w, fate); Inv(c, w') && Tokens(w') <= Tokens(w)
  {
    var w' := ActivateStep(c, w, fate);
    ActivateInv(c, w, fate);
    assert DecidingHandlers(w') == DecidingHandlers(w);
    if |w'.msgs| > |w.msgs| {
      NewMessage(w, w');
    } else {
      assert UndecidedMsgs(w') == UndecidedMsgs(w);
    }
  }

  lemma WriteInv(c: Config, w: World, i: nat, written: bool)
    requires Inv(c, w) && Enabled(w, WriteState(i, written))
    ensures Inv(c, WriteStep(c, w, i, written))
  {
    var w' := WriteStep(c, w, i, written);
    assert forall j :: 0 <= j < |w'.writes| ==> w'.writes[j] == w.writes[if j < i then j else j + 1];
    assert Visited(c, w.writes[i].step);
  }

  lemma WriteKeeps(c: Config, w: World, i: nat, written: bool)
    requires Inv(c, w) && Enabled(w, WriteState(i, written))
    ensures var w' := WriteStep(c, w, i, written); Inv(c, w') && Tokens(w') <= Tokens(w)
  {
    var w' := WriteStep(c, w, i, written);
    WriteInv(c, w, i, written);
    assert DecidingHandlers(w') == DecidingHandlers(w) && UndecidedMsgs(w') == UndecidedMsgs(w);
    if written {
      FinalsAppend(w.changes, w'.changes[|w.changes|]);
    }
  }

  lemma OverflowKeeps(c: Config, w: World, look: Lookup, written: bool)
    requires Inv(c, w) && w.acts != [] && Found(w, look)
    ensures var w' := OverflowStep(c, w, look, written); Inv(c, w') && Tokens(w') <= Tokens(w)
  {
    var w', w0 := OverflowStep(c, w, look, written), w.(acts := w.acts[1..]);
    FetchKeeps(c, w0, look);
    var (w1, o) := Fetch(w0, look);
    if !w1.objs[o].status.Terminal() {
      FinishKeeps(c, w1, o, Failed, 0, InProgress, Overflowed, written);
    }
    assert DecidingHandlers(w') == DecidingHandlers(w) && UndecidedMsgs(w') == UndecidedMsgs(w);
  }

  function Marked(w: World, s: Step): Msg
    requires (s.DlrLoad? || s.MoLoad?) && s.msg < |w.msgs|
  {
    if s.DlrLoad? then w.msgs[s.msg].(dlr := Some(s.report)) else w.msgs[s.msg].(mo := true)
  }

  /** A load in two parts: the object fetched, and the handler, if accepted. */
  lemma LoadIs(c: Config, w: World, s: Step)
    requires Enabled(w, s) && (s.DlrLoad? || s.MoLoad?)
    ensures var (w1, o) := Fetch(w.(msgs := w.msgs[s.msg := Marked(w, s)]), s.look);
            var x := if s.DlrLoad? then DlrHandler(o, s.report, false) else MoHandler(o);
            var accepted := if s.DlrLoad? then DlrAccepted(ObjectAt(w1, o).status) else MoAccepted(ObjectAt(w1, o).status);
            Next(c, w, s) == if accepted then w1.(handlers := w1.handlers[s.handler := x]) else w1
  {
  }

  lemma LoadKeeps(c: Config, w: World, h: nat, m: nat, msg: Msg, look: Lookup, accepted: Status -> bool, x: nat -> Handler)
    requires Inv(c, w) && h !in w.handlers && m < |w.msgs| && Found(w, look)
    requires forall i {:trigger x(i)} :: x(i).obj == i && (x(i).Decides() ==> w.msgs[m].Undecided() && !msg.Undecided())
    requires msg.Undecided() ==> w.msgs[m].Undecided()
    requires forall s :: accepted(s) ==> DlrAccepted(s)
    ensures var (w1, o) := Fetch(w.(msgs := w.msgs[m := msg]), look);
            var w' := if accepted(ObjectAt(w1, o).status) then w1.(handlers := w1.handlers[h := x(o)]) else w1;
            Inv(c, w') && Tokens(w') <= Tokens(w)
  {
    var w0 := w.(msgs := w.msgs[m := msg]);
    FetchKeeps(c, w0, look);
    var (w1, o) := Fetch(w0, look);
    var w' := if accepted(ObjectAt(w1, o).status) then w1.(handlers := w1.handlers[h := x(o)]) else w1;
    MarkedMessage(w, w', m, msg);
    if accepted(ObjectAt(w1, o).status) {
      HandlerOpened(w, w', h, x(o));
    } else {
      assert DecidingHandlers(w') == DecidingHandlers(w);
    }
  }

  lemma DeliveredKeeps(c: Config, w: World, h: nat, written: bool)
    requires AllRespond(c) && Inv(c, w) && Enabled(w, DlrEffect(h, written))
    requires w.handlers[h].report == Delivered
    ensures var w' := DlrEffectStep(c, w, h, written);
            var obj := w.handlers[h].obj;
            var o := w.objs[obj];
            && w' == w.(handlers := w.handlers - {h}, cache := Some(obj),
                        objs := w.objs[obj := o.(status := AwaitingMo, transition := o.transition + 1)])
            && Inv(c, w')
  {
    var o := w.objs[w.handlers[h].obj];
    CommandAtFacts(c.commands, o.step);
    assert !Silent(c, o.step);
  }

  lemma QueueKeeps(c: Config, w: World, a: Act)
    requires Inv(c, w) && a.step >= c.first
    ensures Inv(c, w.(acts := w.acts + [a]))
  {
  }

  lemma ClosingKeeps(c: Config, w: World, h: nat)
    requires Inv(c, w)
    ensures Inv(c, w.(handlers := w.handlers - {h}))
  {
  }

  lemma RetryKeeps(c: Config, w: World, obj: nat, written: bool)
    requires Inv(c, w) && obj < |w.objs| && Visited(c, w.objs[obj].step)
    ensures var w' := RetryOrFail(c, w, obj, written);
            && Inv(c, w') && w'.msgs == w.msgs && w'.handlers == w.handlers
            && |w'.acts| + Finals(w'.changes) <= |w.acts| + Finals(w.changes) + 1
  {
    var o := w.objs[obj];
    if o.retry + 1 < c.maxRetries {
      QueueKeeps(c, w, Act(o.step, o.retry + 1));
      assert RetryOrFail(c, w, obj, written) == w.(acts := w.acts + [Act(o.step, o.retry + 1)]);
    } else {
      ExhaustedKeeps(c, w, obj, o.retry + 1, written);
      assert RetryOrFail(c, w, obj, written) == Finish(c, w, obj, Failed, o.retry + 1, InProgress, Exhausted, written);
    }
  }

  lemma ExhaustedKeeps(c: Config, w: World, obj: nat, retry: int, written: bool)
    requires Inv(c, w) && obj < |w.objs|
    ensures var w' := Finish(c, w, obj, Failed, retry, InProgress, Exhausted, written);
            && Inv(c, w') && w'.msgs == w.msgs && w'.handlers == w.handlers
            && |w'.acts| + Finals(w'.changes) <= |w.acts| + Finals(w.changes) + 1
  {
    FinishKeeps(c, w, obj, Failed, retry, InProgress, Exhausted, written);
  }

  lemma PartialKeeps(c: Config, w: World, obj: nat, written: bool)
    requires Inv(c, w) && obj < |w.objs|
    ensures var w' := Finish(c, w, obj, Failed, 0, Pending, PartSubmitted, written);
            && Inv(c, w') && w'.msgs == w.msgs && w'.handlers == w.handlers
            && |w'.acts| + Finals(w'.changes) <= |w.acts| + Finals(w.changes) + 1
  {
    FinishKeeps(c, w, obj, Failed, 0, Pending, PartSubmitted, written);
  }

  lemma DecidedKeeps(c: Config, w: World, h: nat, written: bool)
    requires Inv(c, w) && Enabled(w, DlrEffect(h, written)) && w.handlers[h].Decides()
    ensures var w' := DlrEffectStep(c, w, h, written);
            && Inv(c, w') && w'.msgs == w.msgs && w'.handlers == w.handlers - {h}
            && |w'.acts| + Finals(w'.changes) <= |w.acts| + Finals(w.changes) + 1
  {
    var w0, obj := w.(handlers := w.handlers - {h}), w.handlers[h].obj;
    var w' := DlrEffectStep(c, w, h, written);
    ClosingKeeps(c, w, h);
    if w.handlers[h].report == Partial {
      PartialKeeps(c, w0, obj, written);
      assert w' == Finish(c, w0, obj, Failed, 0, Pending, PartSubmitted, written);
    } else {
      RetryKeeps(c, w0, obj, written);
      assert w' == RetryOrFail(c, w0, obj, written);
    }
  }

  lemma DlrEffectKeeps(c: Config, w: World, h: nat, written: bool)
    requires AllRespond(c) && Inv(c, w) && Enabled(w, DlrEffect(h, written))
    ensures var w' := DlrEffectStep(c, w, h, written); Inv(c, w') && Tokens(w') <= Tokens(w)
  {
    var w' := DlrEffectStep(c, w, h, written);
    if w.handlers[h].Decides() {
      DecidedKeeps(c, w, h, written);
    } else if w.handlers[h].report == Delivered {
      DeliveredKeeps(c, w, h, written);
    }
    HandlerClosed(w, w', h);
    assert UndecidedMsgs(w') == UndecidedMsgs(w);
  }

  lemma DlrCheckKeeps(c: Config, w: World, h: nat)
    requires Inv(c, w) && Enabled(w, DlrCheck(h))
    ensures var w' := DlrCheckStep(w, h); Inv(c, w') && Tokens(w') <= Tokens(w)
  {
    var w' := DlrCheckStep(w, h);
    assert UndecidedMsgs(w') == UndecidedMsgs(w);
    if Awaiting(w.objs[w.handlers[h].obj].status) {
      assert DecidingHandlers(w') == DecidingHandlers(w);
    } else {
      HandlerClosed(w, w', h);
    }
  }

  lemma RefusedKeeps(c: Config, w: World, obj: nat, written: bool)
    requires Inv(c, w) && obj < |w.objs|
    ensures var w' := Finish(c, w, obj, Failed, 0, InProgress, Declined, written);
            && Inv(c, w') && w'.msgs == w.msgs && w'.handlers == w.handlers
            && |w'.acts| + Finals(w'.changes) <= |w.acts| + Finals(w.changes) + 1
  {
    FinishKeeps(c, w, obj, Failed, 0, InProgress, Declined, written);
  }

  lemma AnsweredKeeps(c: Config, w: World, h: nat, answer: Answer, written: bool)
    requires Inv(c, w) && Enabled(w, MoEffect(h, answer, written))
    ensures var w' := MoEffectStep(c, w, h, answer, written);
            && Inv(c, w') && w'.msgs == w.msgs && w'.handlers == w.handlers - {h}
            && |w'.acts| + Finals(w'.changes) <= |w.acts| + Finals(w.changes) + 1
  {
    var w0, obj := w.(handlers := w.handlers - {h}), w.handlers[h].obj;
    var w', o := MoEffectStep(c, w, h, answer, written), w.objs[obj];
    ClosingKeeps(c, w, h);
    if CommandAt(c.commands, o.step).None? || answer.Unreadable? {
      assert w' == w0;
    } else if answer.Accepted? {
      AdvanceKeeps(c, w0, obj, o.step, written);
      assert w' == AdvanceOrComplete(c, w0, obj, o.step, written);
    } else {
      RefusedKeeps(c, w0, obj, written);
      assert w' == Finish(c, w0, obj, Failed, 0, InProgress, Declined, written);
    }
  }

  lemma MoEffectKeeps(c: Config, w: World, h: nat, answer: Answer, written: bool)
    requires Inv(c, w) && Enabled(w, MoEffect(h, answer, written))
    ensures var w' := MoEffectStep(c, w, h, answer, written); Inv(c, w') && Tokens(w') <= Tokens(w)
  {
    var w' := MoEffectStep(c, w, h, answer, written);
    AnsweredKeeps(c, w, h, answer, written);
    HandlerClosed(w, w', h);
    assert UndecidedMsgs(w') == UndecidedMsgs(w);
  }

  lemma NextKeeps(c: Config, w: World, s: Step)
    requires AllRespond(c) && Inv(c, w) && Enabled(w, s)
    ensures Inv(c, Next(c, w, s)) && Tokens(Next(c, w, s)) <= Tokens(w)
  {
    match s
    case Activate(fate) => ActivateKeeps(c, w, fate);
    case WriteState(i, written) => WriteKeeps(c, w, i, written);
    case Throttle =>
      assert DecidingHandlers(Next(c, w, s)) == DecidingHandlers(w) && UndecidedMsgs(Next(c, w, s)) == UndecidedMsgs(w);
    case Absent(_) =>
      assert DecidingHandlers(Next(c, w, s)) == DecidingHandlers(w) && UndecidedMsgs(Next(c, w, s)) == UndecidedMsgs(w);
    case Overflow(look, written) => OverflowKeeps(c, w, look, written);
    case Peek(look) =>
      FetchKeeps(c, w, look);
      assert DecidingHandlers(Next(c, w, s)) == DecidingHandlers(w) && UndecidedMsgs(Next(c, w, s)) == UndecidedMsgs(w);
    case DlrLoad(h, m, report, look) =>
      LoadKeeps(c, w, h, m, w.msgs[m].(dlr := Some(report)), look, DlrAccepted, (i: nat) => DlrHandler(i, report, false));
    case DlrCheck(h) => DlrCheckKeeps(c, w, h);
    case DlrEffect(h, written) => DlrEffectKeeps(c, w, h, written);
    case MoLoad(h, m, look) =>
      LoadKeeps(c, w, h, m, w.msgs[m].(mo := true), look, MoAccepted, (i: nat) => MoHandler(i));
    case MoEffect(h, answer, written) => MoEffectKeeps(c, w, h, answer, written);
  }

  lemma {:induction false} ExecKeeps(c: Config, w: World, steps: seq<Step>)
    requires AllRespond(c) && Inv(c, w) && Exec(c, w, steps).Some?
    ensures Inv(c, Exec(c, w, steps).value) && Tokens(Exec(c, w, steps).value) <= Tokens(w)
    decreases |steps|
  {
    if steps != [] {
      NextKeeps(c, w, steps[0]);
      ExecKeeps(c, Next(c, w, steps[0]), steps[1..]);
    }
  }

  // ----------------------------------------------------------------- main results

  /** Whatever the interleaving of loads and effects, and whatever stale objects
      and rows they act on, there is at most one live token, hence at most one
      final change. */
  lemma SingleToken(c: Config, steps: seq<Step>)
    requires AllRespond(c) && Exec(c, Start(c), steps).Some?
    ensures var w := Exec(c, Start(c), steps).value;
            && Tokens(w) <= 1 && Finals(w.changes) <= 1
            && forall e :: e in w.changes ==> Shaped(c, e)
  {
    var w0 := Start(c);
    assert UndecidedMsgs(w0) == {} && DecidingHandlers(w0) == {};
    ExecKeeps(c, w0, steps);
  }
}
