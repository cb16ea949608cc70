/** What the steps of a card's protocol say about the card: which of them end it
    and how, which send it on, and what the database then shows. */
module CardOutcomes {
  import opened Common
  import opened CardStates
  import opened CardStateSchedules
  import opened CardProtocol
  import opened CardTokens

  // ------------------------------------------------------------- what ends a card

  /** No command comes after the step.  Steps below -1 are left to the scan, which
      takes a sequence -1 for none. */
  ghost predicate Last(c: Config, step: int) {
    if step >= -1 then forall s :: s in Sequences(c.commands) ==> s <= step else ScanNext(c.commands, step) == -1
  }

  lemma LastExactly(c: Config, step: int)
    ensures Last(c, step) <==> ScanNext(c.commands, step) == -1
  {
    if step >= -1 {
      ScanFindsLeast(c.commands, step);
    }
  }

  /** The object a report or an answer is acted on. */
  function Acted(w: World, h: nat): CardState
    requires h in w.handlers && w.handlers[h].obj < |w.objs|
  {
    w.objs[w.handlers[h].obj]
  }

  /** The command of the step expects an answer. */
  predicate Answers(c: Config, step: int) {
    CommandAt(c.commands, step).Some? && CommandAt(c.commands, step).value.expectResponse
  }

  /** The step completes its card: an accepted answer at the last command, or a
      delivered report where no answer is expected and no sequence is positive. */
  ghost predicate Completes(c: Config, w: World, s: Step)
    requires Enabled(w, s)
  {
    match s
    case MoEffect(h, answer, _) =>
      answer == Accepted && Acted(w, h).step in Sequences(c.commands) && Last(c, Acted(w, h).step)
    case DlrEffect(h, _) =>
      && w.handlers[h].report == Delivered && !Answers(c, Acted(w, h).step)
      && forall s :: s in Sequences(c.commands) ==> s <= 0
    case _ => false
  }

  /** The object a lookup yields. */
  function Looked(w: World, look: Lookup): CardState
    requires look.Hit? ==> w.cache.Some?
  {
    match look case Hit => ObjectAt(w, w.cache.value) case Miss(_, row) => row
  }

  /** How the step fails its card, if it does: a refusal, used-up attempts, a part
      submission, or no room for a retry of an unfinished card. */
  ghost function Failure(c: Config, w: World, s: Step): Option<End>
    requires Enabled(w, s)
  {
    match s
    case MoEffect(h, answer, _) =>
      if answer == Refused && Acted(w, h).step in Sequences(c.commands) then Some(Declined) else None
    case DlrEffect(h, _) =>
      if w.handlers[h].report == Partial then Some(PartSubmitted)
      else if w.handlers[h].report == Failing && Acted(w, h).retry + 1 >= c.maxRetries then Some(Exhausted)
      else None
    case Overflow(look, _) =>
      if (look.Hit? ==> w.cache.value < |w.objs|) && !Looked(w, look).status.Terminal() then Some(Overflowed) else None
    case _ => None
  }

  /** The object the ending step leaves with a higher transition number. */
  function Ending(w: World, s: Step): CardState
    requires Enabled(w, s) && (s.MoEffect? || s.DlrEffect? || s.Overflow?)
  {
    if s.Overflow? then Looked(w, s.look) else Acted(w, s.handler)
  }

  /** The change is of the card, final, and moves one unit from `from` to its status. */
  predicate Closes(c: Config, e: Change, status: Status, from: Status, retry: int, transition: int, at: int) {
    && e.card == c.card && e.campaign == c.campaign && e.status == status && e.transition == transition
    && e.statsFrom == from && e.statsTo == status && e.step == 0 && e.retry == retry && e.lastMsg == None && e.at == at
  }

  /** The change is of an activation that was sent. */
  predicate Opens(c: Config, e: Change, x: Write, transition: int) {
    && e.card == c.card && e.campaign == c.campaign && e.status == InProgress && e.transition == transition
    && e.statsFrom == Pending && e.statsTo == InProgress
    && e.step == x.step && e.retry == x.retry && e.lastMsg == Some(x.msg) && e.at == x.at
  }

  /** The change a written step emits. */
  ghost predicate Emits(c: Config, w: World, s: Step, e: Change)
    requires Enabled(w, s)
  {
    if Completes(c, w, s) then
      s.written && Closes(c, e, Completed, InProgress, 0, Ending(w, s).transition + 1, w.clock)
    else if Failure(c, w, s).Some? then
      var how := Failure(c, w, s).value;
      s.written && Closes(c, e, Failed, if how == PartSubmitted then Pending else InProgress,
                          if how == Exhausted then Ending(w, s).retry + 1 else 0, Ending(w, s).transition + 1, w.clock)
    else
      s.WriteState? && s.written && Opens(c, e, w.writes[s.index], w.objs[w.writes[s.index].obj].transition)
  }

  /** What the step makes of the card's end and its changes. */
  ghost predicate Settles(c: Config, w: World, s: Step, w': World)
    requires Enabled(w, s)
  {
    && w'.end == (if Completes(c, w, s) then Some(Accomplished)
                  else if Failure(c, w, s).Some? then Failure(c, w, s) else w.end)
    && (w'.changes == w.changes ||
        (|w'.changes| == |w.changes| + 1 && w'.changes == w.changes + [w'.changes[|w.changes|]]
         && Emits(c, w, s, w'.changes[|w.changes|])))
    && (Completes(c, w, s) || Failure(c, w, s).Some? || s.WriteState? ==> (s.written <==> w'.changes != w.changes))
  }

  lemma FinishSettles(c: Config, w: World, obj: nat, status: Status, retry: int, from: Status, how: End, written: bool)
    requires obj < |w.objs|
    ensures var w' := Finish(c, w, obj, status, retry, from, how, written);
            && w'.end == Some(how) && w'.acts == w.acts
            && (!written ==> w'.changes == w.changes)
            && (written ==> |w'.changes| == |w.changes| + 1 && w'.changes == w.changes + [w'.changes[|w.changes|]]
                            && Closes(c, w'.changes[|w.changes|], status, from, retry, w.objs[obj].transition + 1, w.clock))
  {
  }

  lemma MoEffectSettles(c: Config, w: World, s: Step)
    requires Enabled(w, s) && s.MoEffect?
    ensures Settles(c, w, s, Next(c, w, s))
  {
    var w0, obj := w.(handlers := w.handlers - {s.handler}), w.handlers[s.handler].obj;
    var step := w.objs[obj].step;
    CommandAtFacts(c.commands, step);
    LastExactly(c, step);
    FinishSettles(c, w0, obj, Completed, 0, InProgress, Accomplished, s.written);
    FinishSettles(c, w0, obj, Failed, 0, InProgress, Declined, s.written);
  }

  lemma DlrEffectSettles(c: Config, w: World, s: Step)
    requires Enabled(w, s) && s.DlrEffect?
    ensures Settles(c, w, s, Next(c, w, s))
  {
    var w0, obj := w.(handlers := w.handlers - {s.handler}), w.handlers[s.handler].obj;
    LastExactly(c, 0);
    match w.handlers[s.handler].report
    case Unrecognised =>
    case Delivered => FinishSettles(c, w0, obj, Completed, 0, InProgress, Accomplished, s.written);
    case Partial => FinishSettles(c, w0, obj, Failed, 0, Pending, PartSubmitted, s.written);
    case Failing => FinishSettles(c, w0, obj, Failed, w.objs[obj].retry + 1, InProgress, Exhausted, s.written);
  }

  lemma OverflowSettles(c: Config, w: World, s: Step)
    requires Enabled(w, s) && s.Overflow?
    ensures Settles(c, w, s, Next(c, w, s))
  {
    var (w1, o) := Fetch(w.(acts := w.acts[1..]), s.look);
    if o < |w1.objs| {
      assert w1.objs[o] == Looked(w, s.look);
      FinishSettles(c, w1, o, Failed, 0, InProgress, Overflowed, s.written);
    }
  }

  /** Every step, in every world: it ends the card and emits a change exactly as
      Completes, Failure and Emits tell. */
  lemma StepSettles(c: Config, w: World, s: Step)
    requires Enabled(w, s)
    ensures Settles(c, w, s, Next(c, w, s))
  {
    match s
    case MoEffect(_, _, _) => MoEffectSettles(c, w, s);
    case DlrEffect(_, _) => DlrEffectSettles(c, w, s);
    case Overflow(_, _) => OverflowSettles(c, w, s);
    case DlrLoad(_, _, _, _) => LoadIs(c, w, s);
    case MoLoad(_, _, _) => LoadIs(c, w, s);
    case _ =>
  }

  // ------------------------------------------------------------ what sends it on

  /** The activation the step queues: another attempt, or the least sequence above
      the object's step (above 0 where no answer is expected). */
  ghost predicate Queues(c: Config, w: World, s: Step, a: Act)
    requires Enabled(w, s)
  {
    match s
    case MoEffect(h, answer, _) =>
      && answer == Accepted && Acted(w, h).step in Sequences(c.commands)
      && Following(c, Acted(w, h).step, a)
    case DlrEffect(h, _) =>
      var o, r := Acted(w, h), w.handlers[h].report;
      || (r == Failing && o.retry + 1 < c.maxRetries && a == Act(o.step, o.retry + 1))
      || (r == Delivered && !Answers(c, o.step) && Following(c, 0, a))
    case _ => false
  }

  ghost predicate Following(c: Config, step: int, a: Act) {
    && a.retry == 0
    && (if step >= -1 then a.step in Sequences(c.commands) && a.step > step
                           && forall s :: s in Sequences(c.commands) && s > step ==> a.step <= s
        else a.step == ScanNext(c.commands, step) != -1)
  }

  lemma FollowingExactly(c: Config, step: int, a: Act)
    ensures Following(c, step, a) <==> a == Act(ScanNext(c.commands, step), 0) && ScanNext(c.commands, step) != -1
  {
    if step >= -1 {
      ScanFindsLeast(c.commands, step);
    }
  }

  /** An effect queues the activation Queues tells, if any, behind those waiting. */
  lemma EffectQueues(c: Config, w: World, s: Step, a: Act)
    requires Enabled(w, s) && (s.MoEffect? || s.DlrEffect?)
    ensures Queues(c, w, s, a) <==> Next(c, w, s).acts == w.acts + [a]
    ensures Next(c, w, s).acts == w.acts || exists b :: Next(c, w, s).acts == w.acts + [b]
  {
    var acts, o := Next(c, w, s).acts, Acted(w, s.handler);
    CommandAtFacts(c.commands, o.step);
    FollowingExactly(c, o.step, a);
    FollowingExactly(c, 0, a);
    assert w.acts + [a] != w.acts;
    if b :| acts == w.acts + [b] {
      assert acts[|w.acts|] == b && (w.acts + [a])[|w.acts|] == a;
    }
    EffectActs(c, w, s);
  }

  lemma EffectActs(c: Config, w: World, s: Step)
    requires Enabled(w, s) && (s.MoEffect? || s.DlrEffect?)
    ensures var acts, o := Next(c, w, s).acts, Acted(w, s.handler);
            if s.MoEffect? then
              if s.answer == Accepted && CommandAt(c.commands, o.step).Some? && ScanNext(c.commands, o.step) != -1
              then acts == w.acts + [Act(ScanNext(c.commands, o.step), 0)] else acts == w.acts
            else
              var r := w.handlers[s.handler].report;
              if r == Failing && o.retry + 1 < c.maxRetries then acts == w.acts + [Act(o.step, o.retry + 1)]
              else if r == Delivered && !Answers(c, o.step) && ScanNext(c.commands, 0) != -1
              then acts == w.acts + [Act(ScanNext(c.commands, 0), 0)] else acts == w.acts
  {
  }

  // ------------------------------------------------------- what becomes of the objects

  /** An effect counts up its object's transition number if it ends the card or makes
      it await an answer, which the object's status then says; else it leaves the
      object alone.  An ended card is not cached, one that awaits an answer is. */
  lemma EffectObject(c: Config, w: World, s: Step)
    requires Enabled(w, s) && (s.MoEffect? || s.DlrEffect?)
    ensures var w', i := Next(c, w, s), w.handlers[s.handler].obj;
            var o, ends := w.objs[i], Completes(c, w, s) || Failure(c, w, s).Some?;
            var awaits := s.DlrEffect? && w.handlers[s.handler].report == Delivered && Answers(c, o.step);
            && |w'.objs| == |w.objs| && (forall j :: 0 <= j < |w.objs| && j != i ==> w'.objs[j] == w.objs[j])
            && w'.objs[i].step == o.step && w'.objs[i].retry == o.retry
            && w'.objs[i].transition == o.transition + (if ends || awaits then 1 else 0)
            && w'.objs[i].status == (if awaits then AwaitingMo else o.status)
            && w'.cache == (if ends then None else if awaits then Some(i) else w.cache)
            && w'.handlers == w.handlers - {s.handler} && w'.msgs == w.msgs
  {
    if s.MoEffect? {
      CommandAtFacts(c.commands, Acted(w, s.handler).step);
      LastExactly(c, Acted(w, s.handler).step);
    } else {
      LastExactly(c, 0);
    }
  }

  /** An activation that is sent caches a new object of its step and attempt, waiting
      for a report, with transition number 1, and has its change still to write; a
      dropped one caches nothing. */
  lemma ActivationObject(c: Config, w: World, fate: Fate)
    requires w.acts != []
    ensures var w', a := Next(c, w, Activate(fate)), w.acts[0];
            && w'.acts == w.acts[1..]
            && (if fate == Dropped || a.step !in Sequences(c.commands) then w' == w.(acts := w'.acts)
                else
                  && |w'.objs| == |w.objs| + 1 && w'.objs[..|w.objs|] == w.objs && w'.cache == Some(|w.objs|)
                  && var o := w'.objs[|w.objs|];
                     o.step == a.step && o.retry == a.retry && o.status == AwaitingDlr && o.transition == 1)
            && (w'.sent != w.sent <==> fate == Sent && a.step in Sequences(c.commands))
            && (w'.sent != w.sent ==>
                  && w'.sent == w.sent + [a] && w'.msgs == w.msgs + [Msg(None, false)]
                  && |w'.writes| == |w.writes| + 1 && w'.writes[..|w.writes|] == w.writes
                  && var x := w'.writes[|w.writes|];
                     x.obj == |w.objs| && x.step == a.step && x.retry == a.retry && x.msg == |w.msgs| && x.at == w.clock)
  {
    CommandAtFacts(c.commands, w.acts[0].step);
  }

  // ------------------------------------------------------------------ whole runs

  lemma ExecFirst(c: Config, w: World, s: Step, rest: seq<Step>, steps: seq<Step>)
    requires steps == [s] + rest
    ensures Exec(c, w, steps) == if Enabled(w, s) then Exec(c, Next(c, w, s), rest) else None
  {
    assert steps[1..] == rest;
  }

  lemma {:induction false} ExecSplit(c: Config, w: World, a: seq<Step>, b: seq<Step>)
    requires Exec(c, w, a + b).Some?
    ensures Exec(c, w, a).Some? && Exec(c, Exec(c, w, a).value, b) == Exec(c, w, a + b)
    decreases |a|
  {
    if a == [] {
      assert a + b == b;
    } else {
      var s, rest := a[0], a[1..];
      assert a == [s] + rest && a + b == [s] + (rest + b);
      ExecFirst(c, w, s, rest + b, a + b);
      ExecFirst(c, w, s, rest, a);
      ExecSplit(c, Next(c, w, s), rest, b);
    }
  }

  ghost predicate Runs(c: Config, steps: seq<Step>) {
    Exec(c, Start(c), steps).Some?
  }

  /** The world before step i of a run. */
  ghost function Before(c: Config, steps: seq<Step>, i: nat): (w: World)
    requires Runs(c, steps) && i <= |steps|
    ensures Exec(c, Start(c), steps[..i]) == Some(w)
    ensures i < |steps| ==> Enabled(w, steps[i])
  {
    assert steps == steps[..i] + steps[i..];
    ExecSplit(c, Start(c), steps[..i], steps[i..]);
    Exec(c, Start(c), steps[..i]).value
  }

  lemma BeforeNext(c: Config, steps: seq<Step>, i: nat)
    requires Runs(c, steps) && i < |steps|
    ensures Before(c, steps, i + 1) == Next(c, Before(c, steps, i), steps[i])
  {
    var w := Before(c, steps, i + 1);
    assert steps[..i + 1] == steps[..i] + [steps[i]];
    ExecSplit(c, Start(c), steps[..i], [steps[i]]);
    ExecFirst(c, Before(c, steps, i), steps[i], [], [steps[i]]);
  }

  /** The change e went to its writer at step i. */
  ghost predicate EmittedAt(c: Config, steps: seq<Step>, i: int, e: Change)
    requires Runs(c, steps)
  {
    0 <= i < |steps| && Before(c, steps, i + 1).changes == Before(c, steps, i).changes + [e]
  }

  lemma EmittedEmits(c: Config, steps: seq<Step>, i: int, e: Change)
    requires Runs(c, steps) && EmittedAt(c, steps, i, e)
    ensures Emits(c, Before(c, steps, i), steps[i], e)
  {
    var w := Before(c, steps, i);
    BeforeNext(c, steps, i);
    StepSettles(c, w, steps[i]);
    assert (w.changes + [e])[|w.changes|] == e;
  }

  lemma EmittedStep(c: Config, steps: seq<Step>, i: nat, e: Change)
    requires Runs(c, steps) && i < |steps|
    ensures e in Before(c, steps, i + 1).changes <==> e in Before(c, steps, i).changes || EmittedAt(c, steps, i, e)
  {
    BeforeNext(c, steps, i);
    var w, w' := Before(c, steps, i), Before(c, steps, i + 1);
    StepSettles(c, w, steps[i]);
    if w'.changes != w.changes {
      assert EmittedAt(c, steps, i, w'.changes[|w.changes|]);
    }
  }

  /** A card's changes are those its steps emit. */
  lemma {:induction false} EmittedExactly(c: Config, steps: seq<Step>, n: nat, e: Change)
    requires Runs(c, steps) && n <= |steps|
    ensures e in Before(c, steps, n).changes <==> exists i :: i < n && EmittedAt(c, steps, i, e)
  {
    if n == 0 {
      assert steps[..0] == [];
    } else {
      EmittedExactly(c, steps, n - 1, e);
      EmittedStep(c, steps, n - 1, e);
    }
  }

  ghost predicate CompletesAt(c: Config, steps: seq<Step>, i: int)
    requires Runs(c, steps)
  {
    0 <= i < |steps| && Completes(c, Before(c, steps, i), steps[i])
  }

  ghost predicate FailsAt(c: Config, steps: seq<Step>, i: int)
    requires Runs(c, steps)
  {
    0 <= i < |steps| && Failure(c, Before(c, steps, i), steps[i]).Some?
  }

  /** A change says completed exactly when a completing step emitted it, and failed
      exactly when a failing one did. */
  lemma StatusExactly(c: Config, steps: seq<Step>, e: Change)
    requires Runs(c, steps) && e in Exec(c, Start(c), steps).value.changes
    ensures e.status == Completed <==> exists i :: CompletesAt(c, steps, i) && EmittedAt(c, steps, i, e)
    ensures e.status == Failed <==> exists i :: FailsAt(c, steps, i) && EmittedAt(c, steps, i, e)
  {
    assert steps[..|steps|] == steps;
    EmittedExactly(c, steps, |steps|, e);
    forall i | EmittedAt(c, steps, i, e)
      ensures (e.status == Completed <==> CompletesAt(c, steps, i)) && (e.status == Failed <==> FailsAt(c, steps, i))
    {
      EmittedEmits(c, steps, i, e);
      NotBoth(c, Before(c, steps, i), steps[i]);
    }
  }

  lemma NotBoth(c: Config, w: World, s: Step)
    requires Enabled(w, s)
    ensures !(Completes(c, w, s) && Failure(c, w, s).Some?)
  {
  }

  /** Every change of the run reached a writer. */
  predicate Written(s: Step) {
    s.WriteState? || s.Overflow? || s.DlrEffect? || s.MoEffect? ==> s.written
  }

  ghost predicate AllWritten(steps: seq<Step>) {
    forall i :: 0 <= i < |steps| ==> Written(steps[i])
  }

  lemma WrittenEmits(c: Config, steps: seq<Step>, i: int) returns (e: Change)
    requires Runs(c, steps) && AllWritten(steps) && (CompletesAt(c, steps, i) || FailsAt(c, steps, i))
    ensures EmittedAt(c, steps, i, e) && e in Exec(c, Start(c), steps).value.changes
  {
    var w, w' := Before(c, steps, i), Before(c, steps, i + 1);
    assert Written(steps[i]);
    BeforeNext(c, steps, i);
    StepSettles(c, w, steps[i]);
    e := w'.changes[|w.changes|];
    assert EmittedAt(c, steps, i, e);
    EmittedExactly(c, steps, |steps|, e);
    assert steps[..|steps|] == steps;
  }

  /** Over every fully written run a completed change is among the card's exactly
      when a step completed it, and a failed one exactly when a step failed it. */
  lemma OutcomeExactly(c: Config, steps: seq<Step>)
    requires Runs(c, steps) && AllWritten(steps)
    ensures var es := Exec(c, Start(c), steps).value.changes;
            && ((exists e :: e in es && e.status == Completed) <==> exists i :: CompletesAt(c, steps, i))
            && ((exists e :: e in es && e.status == Failed) <==> exists i :: FailsAt(c, steps, i))
  {
    var es := Exec(c, Start(c), steps).value.changes;
    if i :| CompletesAt(c, steps, i) {
      var e := WrittenEmits(c, steps, i);
      StatusExactly(c, steps, e);
    }
    if i :| FailsAt(c, steps, i) {
      var e := WrittenEmits(c, steps, i);
      StatusExactly(c, steps, e);
    }
    if e :| e in es && e.status == Completed {
      StatusExactly(c, steps, e);
    }
    if e :| e in es && e.status == Failed {
      StatusExactly(c, steps, e);
    }
  }

  /** Where every command expects an answer, only an accepted answer at a step with
      no sequence above it completes a card. */
  lemma AnswerCompletes(c: Config, steps: seq<Step>, i: int)
    requires AllRespond(c) && c.first >= -1 && Runs(c, steps) && 0 <= i < |steps|
    ensures CompletesAt(c, steps, i) <==>
            && steps[i].MoEffect? && steps[i].answer == Accepted
            && var step := Acted(Before(c, steps, i), steps[i].handler).step;
               step in Sequences(c.commands) && forall s :: s in Sequences(c.commands) ==> s <= step
  {
    var w0, w := Start(c), Before(c, steps, i);
    assert UndecidedMsgs(w0) == {} && DecidingHandlers(w0) == {};
    ExecKeeps(c, w0, steps[..i]);
    if steps[i].DlrEffect? || steps[i].MoEffect? {
      var step := Acted(w, steps[i].handler).step;
      assert Visited(c, step);
      CommandAtFacts(c.commands, step);
      assert !Silent(c, step);
    }
  }

  // ------------------------------------------------------- what a lookup may find

  ghost predicate OwnChanges(c: Config, w: World) {
    forall e :: e in w.changes ==> e.card == c.card && e.campaign == c.campaign
  }

  lemma RunOwnChanges(c: Config, steps: seq<Step>)
    requires Runs(c, steps)
    ensures OwnChanges(c, Exec(c, Start(c), steps).value)
  {
    assert steps[..|steps|] == steps;
    forall e | e in Exec(c, Start(c), steps).value.changes ensures e.card == c.card && e.campaign == c.campaign {
      EmittedExactly(c, steps, |steps|, e);
      var i :| EmittedAt(c, steps, i, e);
      EmittedEmits(c, steps, i, e);
    }
  }

  /** A database of which the card's rows are initial ones, and batches of changes
      of which the card's are among those it emitted. */
  ghost predicate Stores(c: Config, w: World, db: Db, bs: seq<seq<Change>>) {
    var k := CardKey(c.card, c.campaign);
    && (forall q :: q in db.states && q.Owner() == k ==> q.transition == 0 && db.states[q].status == Pending)
    && (forall e :: e in Flatten(bs) && e.card == c.card && e.campaign == c.campaign ==> e in w.changes)
  }

  /** The newest row as an object in the cache would hold it. */
  ghost predicate Shows(h: Option<Head>, row: CardState) {
    h.Some? && row == CardState(h.value.row.step, h.value.row.status, h.value.row.retry, h.value.transition)
  }

  lemma ShownDurable(c: Config, w: World, db: Db, bs: seq<seq<Change>>, row: CardState)
    requires Stores(c, w, db, bs) && Shows(FinalHead(db, bs, CardKey(c.card, c.campaign)), row)
    ensures Durable(w, row)
  {
    var q := Key(c.card, c.campaign, row.transition);
    RowsRecord(db, bs, q);
    if q in db.states {
      assert q.Owner() == CardKey(c.card, c.campaign);
    } else {
      var e :| e in Flatten(bs) && Records(q, WriteBatches(db, bs).states[q], e);
      assert e in w.changes && row == CardState(e.step, e.status, e.retry, e.transition);
    }
  }

  lemma ShowInitial(c: Config, w: World, row: CardState) returns (db: Db)
    requires row.status == Pending && row.transition == 0
    ensures Stores(c, w, db, []) && Shows(FinalHead(db, [], CardKey(c.card, c.campaign)), row)
  {
    var q := Key(c.card, c.campaign, 0);
    db := Db(map[q := Row(Pending, row.step, row.retry, None, "", 0)], map[]);
    assert Flatten<Change>([]) == [];
    assert q in db.states && q.Owner() == CardKey(c.card, c.campaign);
  }

  lemma ShowChange(c: Config, w: World, e: Change)
    requires OwnChanges(c, w) && e in w.changes
    ensures Stores(c, w, Db(map[], map[]), [[e]])
    ensures Shows(FinalHead(Db(map[], map[]), [[e]], CardKey(c.card, c.campaign)),
                  CardState(e.step, e.status, e.retry, e.transition))
  {
    var db, bs := Db(map[], map[]), [[e]];
    assert bs[..0] == [] && WriteBatches(db, bs[..0]) == db;
    assert Flatten(bs) == [e] + Flatten(bs[1..]);
    SingleBatch(map[], e);
    var t := WriteBatches(db, bs).states;
    assert t == map[e.RowKey() := e.ToRow()];
    assert e.RowKey() in t && e.RowKey().Owner() == CardKey(c.card, c.campaign);
  }

  /** The rows the protocol lets a missed lookup find are just those that can be the
      card's newest in the database, whatever part of its changes was flushed how. */
  lemma DurableExactly(c: Config, steps: seq<Step>, row: CardState)
    requires Runs(c, steps)
    ensures var w := Exec(c, Start(c), steps).value;
            Durable(w, row) <==>
            exists db, bs :: Stores(c, w, db, bs) && Shows(FinalHead(db, bs, CardKey(c.card, c.campaign)), row)
  {
    var w := Exec(c, Start(c), steps).value;
    RunOwnChanges(c, steps);
    if row.status == Pending && row.transition == 0 {
      var db := ShowInitial(c, w, row);
    } else if Durable(w, row) {
      var e :| e in w.changes && row == CardState(e.step, e.status, e.retry, e.transition);
      ShowChange(c, w, e);
    }
    if db, bs :| Stores(c, w, db, bs) && Shows(FinalHead(db, bs, CardKey(c.card, c.campaign)), row) {
      ShownDurable(c, w, db, bs, row);
    }
  }

  // ------------------------------------------------------------- opening and waiting

  /** A report opens a handler exactly on an object in progress or awaiting a report or
      an answer, and an answer exactly on one awaiting either; the handler stands on the
      object found and has yet to be tested. */
  lemma LoadOpens(c: Config, w: World, s: Step)
    requires Enabled(w, s) && (s.DlrLoad? || s.MoLoad?)
    ensures var w', status := Next(c, w, s), Looked(w, s.look).status;
            && w'.acts == w.acts && w'.sent == w.sent && w'.changes == w.changes && w'.end == w.end
            && (forall h :: h in w.handlers ==> h in w'.handlers && w'.handlers[h] == w.handlers[h])
            && (s.handler in w'.handlers <==>
                  if s.DlrLoad? then status in {AwaitingDlr, InProgress, AwaitingMo} else status in {AwaitingDlr, AwaitingMo})
            && (s.handler in w'.handlers ==>
                  && w'.handlers[s.handler] ==
                       (if s.DlrLoad? then DlrHandler(w'.handlers[s.handler].obj, s.report, false)
                        else MoHandler(w'.handlers[s.handler].obj))
                  && w'.cache == Some(w'.handlers[s.handler].obj))
  {
    LoadIs(c, w, s);
    var w0 := w.(msgs := w.msgs[s.msg := Marked(w, s)]);
    var (w1, o) := Fetch(w0, s.look);
    assert ObjectAt(w1, o) == Looked(w, s.look);
  }

  /** A report passes its test exactly on an object in progress or awaiting a report;
      else its handler is done. */
  lemma CheckPasses(c: Config, w: World, h: nat)
    requires Enabled(w, DlrCheck(h))
    ensures var w', x := Next(c, w, DlrCheck(h)), w.handlers[h];
            && w' == w.(handlers := w'.handlers) && w'.handlers - {h} == w.handlers - {h}
            && (h in w'.handlers <==> Acted(w, h).status in {AwaitingDlr, InProgress})
            && (h in w'.handlers ==> w'.handlers[h] == DlrHandler(x.obj, x.report, true))
  {
  }

  /** A throttled activation goes behind those waiting, and nothing else changes. */
  lemma ThrottleKeeps(c: Config, w: World)
    requires w.acts != []
    ensures var w' := Next(c, w, Throttle);
            w' == w.(acts := w'.acts) && multiset(w'.acts) == multiset(w.acts) && w'.acts[|w'.acts| - 1] == w.acts[0]
  {
    assert w.acts == [w.acts[0]] + w.acts[1..];
  }
}
