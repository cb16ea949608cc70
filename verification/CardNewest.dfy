/** The newest row of a card against the changes its protocol emits: activations
    restart the transition numbers, and their changes are written late. */
module CardNewest {
  import opened Common
  import opened CardStates
  import opened CardStateSchedules
  import opened CardProtocol
  import opened CardTokens
  import opened CardRuns

  // -------------------------------------------------------------- any log of changes

  predicate IsFinal(h: Option<Head>) {
    h.Some? && h.value.row.status.Terminal()
  }

  /** However the log is flushed, the card's newest row is final. */
  ghost predicate AlwaysFinal(db: Db, log: seq<Change>, k: CardKey) {
    forall bs :: Schedules(bs, log) ==> IsFinal(FinalHead(db, bs, k))
  }

  /** Every unfinished change of the card is older than f. */
  ghost predicate OnTop(log: seq<Change>, k: CardKey, f: Change) {
    forall e :: e in log && e.Owner() == k && !e.status.Terminal() ==> e.transition < f.transition
  }

  /** f is the card's final change, and the stored rows are from before the log. */
  ghost predicate Ends(t: Table, log: seq<Change>, k: CardKey, f: Change) {
    && f in log && f.Owner() == k && f.status.Terminal()
    && (forall e :: e in log && e.Owner() == k && e.status.Terminal() ==> e == f)
    && (forall e, q :: e in log && e.Owner() == k && q in t && q.Owner() == k ==> q.transition < e.transition)
  }

  /** With the final change on top, every flushing of the log leaves it newest. */
  lemma OnTopStays(db: Db, log: seq<Change>, bs: seq<seq<Change>>, k: CardKey, f: Change)
    requires Ends(db.states, log, k, f) && OnTop(log, k, f) && Schedules(bs, log)
    ensures IsFinal(FinalHead(db, bs, k))
  {
    var t, t' := db.states, WriteBatches(db, bs).states;
    BatchesGrow(db, bs);
    GrownMembers(t, t', Flatten(bs), log);
    GrownHead(t, t', log, k);
    SourceFinal(t, log, k, f, HeadOf(t', k));
  }

  /** The newest row comes from the log, where only f is as new as f. */
  lemma SourceFinal(t: Table, log: seq<Change>, k: CardKey, f: Change, head: Option<Head>)
    requires Ends(t, log, k, f) && OnTop(log, k, f) && HeadSource(t, log, k, head)
    ensures IsFinal(head)
  {
    var q := Key(k.card, k.campaign, head.value.transition);
    assert f.transition <= head.value.transition;
    assert q.Owner() == k && q !in t;
  }

  /** A newest unfinished change. */
  lemma {:induction false} NewestUnfinished(log: seq<Change>, k: CardKey, x: Change) returns (e: Change)
    requires x in log && x.Owner() == k && !x.status.Terminal()
    ensures e in log && e.Owner() == k && !e.status.Terminal()
    ensures forall y :: y in log && y.Owner() == k && !y.status.Terminal() ==> y.transition <= e.transition
  {
    var past, last := log[..|log| - 1], log[|log| - 1];
    assert forall y :: y in log <==> y in past || y == last;
    if y :| y in past && y.Owner() == k && !y.status.Terminal() {
      e := NewestUnfinished(past, k, y);
      if last.Owner() == k && !last.status.Terminal() && last.transition > e.transition {
        e := last;
      }
    } else {
      e := x;
    }
  }

  /** Exactly when a finished card is seen finished, however its changes are
      flushed: no unfinished change has reached its final transition number. */
  lemma NewestFinalExactly(db: Db, log: seq<Change>, k: CardKey, f: Change)
    requires Ends(db.states, log, k, f)
    ensures AlwaysFinal(db, log, k) <==> OnTop(log, k, f)
  {
    if OnTop(log, k, f) {
      forall bs | Schedules(bs, log) ensures IsFinal(FinalHead(db, bs, k)) {
        OnTopStays(db, log, bs, k, f);
      }
    } else {
      var x :| x in log && x.Owner() == k && !x.status.Terminal() && x.transition >= f.transition;
      var e := NewestUnfinished(log, k, x);
      assert Tops(db.states, log, k, e);
      FirstFlushedSchedules(db, log, e);
      FirstFlushedStays(db, log, k, e);
      assert !IsFinal(FinalHead(db, FirstFlushed(log, e), k));
    }
  }

  // ---------------------------------------------------------------- prompt writes

  /** Reports and answers take effect only when every activation's change has
      been written, and lookups that miss are over before an activation. */
  predicate Prompt(w: World, s: Step) {
    && (s.DlrEffect? || s.MoEffect? || s.Overflow? ==> w.writes == [])
    && (s.Activate? ==> w.misses == {})
  }

  ghost predicate PromptRun(c: Config, w: World, steps: seq<Step>)
    decreases |steps|
  {
    steps == [] ||
    (Enabled(w, steps[0]) && Prompt(w, steps[0]) && PromptRun(c, Next(c, w, steps[0]), steps[1..]))
  }

  predicate Active(w: World) {
    w.acts != [] || UndecidedMsgs(w) != {} || DecidingHandlers(w) != {}
  }

  /** While something can still happen, the cached object is one that reports
      move, once anything was sent. */
  ghost predicate Cached(w: World) {
    Active(w) ==>
      if w.sent == [] then w.changes == [] && w.writes == []
      else w.misses == {} && w.cache.Some? && w.cache.value < |w.objs| && DlrAccepted(w.objs[w.cache.value].status)
  }

  /** Activations are written with number 1, endings with a higher one. */
  ghost predicate Ranked(w: World) {
    && (forall i :: 0 <= i < |w.objs| ==> w.objs[i].transition >= if DlrAccepted(w.objs[i].status) then 1 else 0)
    && (forall i :: 0 <= i < |w.writes| ==> w.writes[i].obj < |w.objs| && w.objs[w.writes[i].obj].transition == 1)
    && (forall h :: h in w.handlers ==> w.handlers[h].obj < |w.objs| && DlrAccepted(w.objs[w.handlers[h].obj].status))
    && (w.sent == [] ==> w.writes == [])
    && (forall e :: e in w.changes ==> e.transition >= 1)
    && (forall e :: e in w.changes && !e.status.Terminal() ==> e.transition == 1 && w.sent != [])
    && (forall e :: e in w.changes && e.status.Terminal() && w.sent != [] ==> e.transition >= 2)
  }

  ghost predicate Neat(c: Config, w: World) {
    AllRespond(c) && Inv(c, w) && Tokens(w) <= 1 && Cached(w) && Ranked(w)
  }

  lemma OneToken(w: World)
    requires Tokens(w) <= 1 && w.acts != []
    ensures |w.acts| == 1 && UndecidedMsgs(w) == {} && DecidingHandlers(w) == {} && Finals(w.changes) == 0
  {
  }

  lemma OneDecision(w: World, h: nat)
    requires Tokens(w) <= 1 && h in DecidingHandlers(w)
    ensures w.acts == [] && UndecidedMsgs(w) == {} && DecidingHandlers(w) == {h}
  {
    SubsetSize({h}, DecidingHandlers(w));
  }

  lemma SameHands(w: World, w': World)
    requires w'.msgs == w.msgs && w'.handlers == w.handlers
    ensures UndecidedMsgs(w') == UndecidedMsgs(w) && DecidingHandlers(w') == DecidingHandlers(w)
  {
  }

  // ------------------------------------------------------------------------ steps

  lemma FetchRanked(w: World, look: Lookup)
    requires Ranked(w) && Found(w, look)
    ensures Ranked(Fetch(w, look).0)
  {
  }

  lemma FetchCached(w: World, look: Lookup)
    requires Cached(w) && Found(w, look)
    ensures Cached(Fetch(w, look).0)
  {
    var w' := Fetch(w, look).0;
    assert UndecidedMsgs(w') == UndecidedMsgs(w) && DecidingHandlers(w') == DecidingHandlers(w);
  }

  lemma ActivateNeat(c: Config, w: World, fate: Fate)
    requires Neat(c, w) && w.acts != [] && w.misses == {}
    ensures Cached(ActivateStep(c, w, fate)) && Ranked(ActivateStep(c, w, fate))
  {
    var w' := ActivateStep(c, w, fate);
    OneToken(w);
    if |w'.msgs| == |w.msgs| {
      assert w'.acts == [];
      SameHands(w, w');
    }
    assert Active(w);
    assert Finals(w.changes) == 0;
    NoFinals(w.changes);
  }

  lemma {:induction false} NoFinals(es: seq<Change>)
    requires Finals(es) == 0
    ensures forall e :: e in es ==> !e.status.Terminal()
  {
    if es != [] {
      NoFinals(es[..|es| - 1]);
      assert es == es[..|es| - 1] + [es[|es| - 1]];
    }
  }

  lemma WriteNeat(c: Config, w: World, i: nat, written: bool)
    requires Neat(c, w) && Enabled(w, WriteState(i, written))
    ensures Cached(WriteStep(c, w, i, written)) && Ranked(WriteStep(c, w, i, written))
  {
    var w' := WriteStep(c, w, i, written);
    assert UndecidedMsgs(w') == UndecidedMsgs(w) && DecidingHandlers(w') == DecidingHandlers(w);
    assert forall j :: 0 <= j < |w'.writes| ==> w'.writes[j] == w.writes[if j < i then j else j + 1];
  }

  /** Finishing on an object that reports move, or before anything was sent. */
  lemma FinishRanked(c: Config, w: World, obj: nat, status: Status, retry: int, from: Status, how: End, written: bool)
    requires Ranked(w) && obj < |w.objs| && status.Terminal() && w.writes == []
    requires DlrAccepted(w.objs[obj].status) || (w.sent == [] && w.objs[obj].transition >= 0)
    ensures Ranked(Finish(c, w, obj, status, retry, from, how, written))
  {
  }

  lemma OverflowNeat(c: Config, w: World, look: Lookup, written: bool)
    requires Neat(c, w) && w.acts != [] && Found(w, look) && w.writes == []
    ensures Cached(OverflowStep(c, w, look, written)) && Ranked(OverflowStep(c, w, look, written))
  {
    var w' := OverflowStep(c, w, look, written);
    OneToken(w);
    SameHands(w, w');
    assert !Active(w');
    OverflowRanked(c, w, look, written);
  }

  lemma OverflowRanked(c: Config, w: World, look: Lookup, written: bool)
    requires Ranked(w) && Cached(w) && w.acts != [] && Found(w, look) && w.writes == []
    ensures Ranked(OverflowStep(c, w, look, written))
  {
    var w0 := w.(acts := w.acts[1..]);
    FetchRanked(w0, look);
    var (w1, o) := Fetch(w0, look);
    if o < |w1.objs| && !w1.objs[o].status.Terminal() {
      assert Active(w);
      FinishRanked(c, w1, o, Failed, 0, InProgress, Overflowed, written);
    }
  }

  lemma LoadRanked(c: Config, w: World, s: Step)
    requires Ranked(w) && Enabled(w, s) && (s.DlrLoad? || s.MoLoad?)
    ensures Ranked(Next(c, w, s))
  {
    var w0 := w.(msgs := w.msgs[s.msg := Marked(w, s)]);
    FetchRanked(w0, s.look);
    LoadIs(c, w, s);
    OpenedRanked(Fetch(w0, s.look).0, Next(c, w, s));
  }

  /** Opening a handler on an accepted object. */
  lemma OpenedRanked(w: World, w': World)
    requires Ranked(w) && w' == w.(handlers := w'.handlers)
    requires forall g :: g in w'.handlers ==>
               (g in w.handlers && w'.handlers[g] == w.handlers[g])
               || (w'.handlers[g].obj < |w.objs| && DlrAccepted(w.objs[w'.handlers[g].obj].status))
    ensures Ranked(w')
  {
  }

  lemma LoadCached(c: Config, w: World, s: Step)
    requires Cached(w) && Enabled(w, s) && (s.DlrLoad? || s.MoLoad?)
    ensures Cached(Next(c, w, s))
  {
    var w' := Next(c, w, s);
    LoadIs(c, w, s);
    if Active(w) {
      assert w'.sent == w.sent && w'.changes == w.changes && w'.writes == w.writes;
    } else {
      LoadStaysInactive(w, s, w', Marked(w, s));
    }
  }

  lemma LoadNeat(c: Config, w: World, s: Step)
    requires Neat(c, w) && Enabled(w, s) && (s.DlrLoad? || s.MoLoad?)
    ensures Cached(Next(c, w, s)) && Ranked(Next(c, w, s))
  {
    LoadRanked(c, w, s);
    LoadCached(c, w, s);
  }

  lemma LoadStaysInactive(w: World, s: Step, w': World, msg: Msg)
    requires !Active(w) && Enabled(w, s) && (s.DlrLoad? || s.MoLoad?) && w'.acts == []
    requires w'.msgs == w.msgs[s.msg := msg] && (msg.Undecided() ==> w.msgs[s.msg].Undecided())
    requires forall h :: h in w'.handlers && !(h in w.handlers && w'.handlers[h] == w.handlers[h]) ==>
               (w'.handlers[h].Decides() ==> w.msgs[s.msg].Undecided())
    ensures !Active(w')
  {
    assert s.msg !in UndecidedMsgs(w);
    assert forall i :: 0 <= i < |w.msgs| ==> i !in UndecidedMsgs(w);
    assert UndecidedMsgs(w') == {};
    assert forall h :: h in w.handlers ==> h !in DecidingHandlers(w);
    assert DecidingHandlers(w') == {};
  }

  lemma DeliveredNeat(c: Config, w: World, h: nat, written: bool)
    requires Neat(c, w) && Enabled(w, DlrEffect(h, written)) && w.writes == []
    requires w.handlers[h].report == Delivered
    ensures Cached(DlrEffectStep(c, w, h, written)) && Ranked(DlrEffectStep(c, w, h, written))
  {
    var w' := DlrEffectStep(c, w, h, written);
    DeliveredKeeps(c, w, h, written);
    assert UndecidedMsgs(w') == UndecidedMsgs(w) && DecidingHandlers(w') == DecidingHandlers(w);
    assert DlrAccepted(w.objs[w.handlers[h].obj].status);
  }

  /** A decision that queues nothing leaves nothing to happen. */
  lemma DecisionEnds(c: Config, w: World, h: nat, w': World)
    requires Neat(c, w) && h in DecidingHandlers(w)
    requires w'.msgs == w.msgs && w'.handlers == w.handlers - {h} && w'.acts == w.acts
    ensures !Active(w')
  {
    OneDecision(w, h);
    assert UndecidedMsgs(w') == UndecidedMsgs(w);
    assert DecidingHandlers(w') == DecidingHandlers(w) - {h};
  }

  lemma DecisionCaches(c: Config, w: World, h: nat, a: Act)
    requires Neat(c, w) && h in DecidingHandlers(w)
    ensures var w' := w.(handlers := w.handlers - {h}, acts := w.acts + [a]); Cached(w') && Ranked(w')
  {
    assert Active(w);
  }

  lemma ClosedRanked(w: World, h: nat)
    requires Ranked(w)
    ensures Ranked(w.(handlers := w.handlers - {h}))
  {
  }

  /** Finishing by a decision. */
  lemma DecisionFinishes(c: Config, w: World, h: nat, status: Status, retry: int, from: Status, how: End, written: bool)
    requires Neat(c, w) && h in DecidingHandlers(w) && status.Terminal() && w.writes == []
    ensures var w0, obj := w.(handlers := w.handlers - {h}), w.handlers[h].obj;
            obj < |w.objs| &&
            var w' := Finish(c, w0, obj, status, retry, from, how, written);
            Cached(w') && Ranked(w')
  {
    var w0, obj := w.(handlers := w.handlers - {h}), w.handlers[h].obj;
    var w' := Finish(c, w0, obj, status, retry, from, how, written);
    assert DlrAccepted(w.objs[obj].status);
    ClosedRanked(w, h);
    FinishRanked(c, w0, obj, status, retry, from, how, written);
    FinishIs(c, w0, obj, status, retry, from, how, written);
    DecisionEnds(c, w, h, w');
  }

  lemma FinishIs(c: Config, w: World, obj: nat, status: Status, retry: int, from: Status, how: End, written: bool)
    requires obj < |w.objs|
    ensures var w' := Finish(c, w, obj, status, retry, from, how, written);
            w'.msgs == w.msgs && w'.handlers == w.handlers && w'.acts == w.acts
  {
  }

  lemma RetryNeat(c: Config, w: World, h: nat, written: bool)
    requires Neat(c, w) && h in DecidingHandlers(w) && w.writes == []
    ensures var w' := RetryOrFail(c, w.(handlers := w.handlers - {h}), w.handlers[h].obj, written); Cached(w') && Ranked(w')
  {
    var o := w.objs[w.handlers[h].obj];
    if o.retry + 1 < c.maxRetries {
      DecisionCaches(c, w, h, Act(o.step, o.retry + 1));
    } else {
      DecisionFinishes(c, w, h, Failed, o.retry + 1, InProgress, Exhausted, written);
    }
  }

  /** A decision on an object that has moved on meanwhile. */
  lemma DecisionLost(c: Config, w: World, h: nat)
    requires Neat(c, w) && h in DecidingHandlers(w)
    ensures var w' := w.(handlers := w.handlers - {h}); Cached(w') && Ranked(w')
  {
    DecisionEnds(c, w, h, w.(handlers := w.handlers - {h}));
  }

  lemma DecidedNeat(c: Config, w: World, h: nat, written: bool)
    requires Neat(c, w) && Enabled(w, DlrEffect(h, written)) && w.handlers[h].Decides() && w.writes == []
    ensures Cached(DlrEffectStep(c, w, h, written)) && Ranked(DlrEffectStep(c, w, h, written))
  {
    assert h in DecidingHandlers(w);
    if w.handlers[h].report == Partial {
      DecisionFinishes(c, w, h, Failed, 0, Pending, PartSubmitted, written);
    } else {
      RetryNeat(c, w, h, written);
    }
  }

  lemma MoEffectNeat(c: Config, w: World, h: nat, answer: Answer, written: bool)
    requires Neat(c, w) && Enabled(w, MoEffect(h, answer, written)) && w.writes == []
    ensures Cached(MoEffectStep(c, w, h, answer, written)) && Ranked(MoEffectStep(c, w, h, answer, written))
  {
    var o := w.objs[w.handlers[h].obj];
    assert h in DecidingHandlers(w);
    var next := ScanNext(c.commands, o.step);
    if CommandAt(c.commands, o.step).None? || answer.Unreadable? {
      DecisionLost(c, w, h);
    } else if answer.Refused? {
      DecisionFinishes(c, w, h, Failed, 0, InProgress, Declined, written);
    } else if next == -1 {
      DecisionFinishes(c, w, h, Completed, 0, InProgress, Accomplished, written);
    } else {
      DecisionCaches(c, w, h, Act(next, 0));
    }
  }

  /** A report that moves nothing. */
  lemma IdleNeat(c: Config, w: World, h: nat)
    requires Neat(c, w) && h in w.handlers && !w.handlers[h].Decides()
    ensures var w' := w.(handlers := w.handlers - {h}); Cached(w') && Ranked(w')
  {
    var w' := w.(handlers := w.handlers - {h});
    assert UndecidedMsgs(w') == UndecidedMsgs(w) && DecidingHandlers(w') == DecidingHandlers(w);
  }

  lemma DlrEffectNeat(c: Config, w: World, h: nat, written: bool)
    requires Neat(c, w) && Enabled(w, DlrEffect(h, written)) && w.writes == []
    ensures Cached(DlrEffectStep(c, w, h, written)) && Ranked(DlrEffectStep(c, w, h, written))
  {
    if w.handlers[h].Decides() {
      DecidedNeat(c, w, h, written);
    } else if w.handlers[h].report == Delivered {
      DeliveredNeat(c, w, h, written);
    } else {
      IdleNeat(c, w, h);
      assert DlrEffectStep(c, w, h, written) == w.(handlers := w.handlers - {h});
    }
  }

  lemma PeekNeat(w: World, look: Lookup)
    requires Cached(w) && Ranked(w) && Found(w, look)
    ensures Cached(Fetch(w, look).0) && Ranked(Fetch(w, look).0)
  {
    FetchRanked(w, look);
    FetchCached(w, look);
  }

  lemma AbsentNeat(w: World, id: nat)
    requires Cached(w) && Ranked(w) && w.cache.None?
    ensures Cached(w.(misses := w.misses + {id})) && Ranked(w.(misses := w.misses + {id}))
  {
    SameHands(w, w.(misses := w.misses + {id}));
  }

  lemma PassedNeat(w: World, h: nat)
    requires Cached(w) && Ranked(w) && h in w.handlers && w.handlers[h].DlrHandler?
    ensures var w' := w.(handlers := w.handlers[h := w.handlers[h].(passed := true)]); Cached(w') && Ranked(w')
  {
    var w' := w.(handlers := w.handlers[h := w.handlers[h].(passed := true)]);
    assert UndecidedMsgs(w') == UndecidedMsgs(w) && DecidingHandlers(w') == DecidingHandlers(w);
  }

  lemma DlrCheckNeat(c: Config, w: World, h: nat)
    requires Neat(c, w) && Enabled(w, DlrCheck(h))
    ensures Cached(DlrCheckStep(w, h)) && Ranked(DlrCheckStep(w, h))
  {
    if Awaiting(w.objs[w.handlers[h].obj].status) {
      PassedNeat(w, h);
    } else if w.handlers[h].Decides() {
      assert h in DecidingHandlers(w);
      DecisionLost(c, w, h);
    } else {
      IdleNeat(c, w, h);
    }
  }

  lemma ThrottleNeat(c: Config, w: World)
    requires Neat(c, w) && w.acts != []
    ensures var w' := w.(acts := w.acts[1..] + [w.acts[0]]); Cached(w') && Ranked(w')
  {
    SameHands(w, w.(acts := w.acts[1..] + [w.acts[0]]));
  }

  lemma StepNeat(c: Config, w: World, s: Step)
    requires Neat(c, w) && Enabled(w, s) && Prompt(w, s)
    ensures Cached(Next(c, w, s)) && Ranked(Next(c, w, s))
  {
    match s
    case Activate(fate) => ActivateNeat(c, w, fate);
    case WriteState(i, written) => WriteNeat(c, w, i, written);
    case Throttle => ThrottleNeat(c, w);
    case Absent(id) => AbsentNeat(w, id);
    case Overflow(look, written) => OverflowNeat(c, w, look, written);
    case Peek(look) => PeekNeat(w, look);
    case DlrLoad(_, _, _, _) => LoadNeat(c, w, s);
    case DlrCheck(h) => DlrCheckNeat(c, w, h);
    case DlrEffect(h, written) => DlrEffectNeat(c, w, h, written);
    case MoLoad(_, _, _) => LoadNeat(c, w, s);
    case MoEffect(h, answer, written) => MoEffectNeat(c, w, h, answer, written);
  }

  lemma NextNeat(c: Config, w: World, s: Step)
    requires Neat(c, w) && Enabled(w, s) && Prompt(w, s)
    ensures Neat(c, Next(c, w, s))
  {
    NextKeeps(c, w, s);
    StepNeat(c, w, s);
  }

  lemma {:induction false} ExecNeat(c: Config, w: World, steps: seq<Step>)
    requires Neat(c, w) && PromptRun(c, w, steps)
    ensures Exec(c, w, steps).Some? && Neat(c, Exec(c, w, steps).value)
    decreases |steps|
  {
    if steps != [] {
      NextNeat(c, w, steps[0]);
      ExecNeat(c, Next(c, w, steps[0]), steps[1..]);
    }
  }

  // ----------------------------------------------------------------- main results

  /** With prompt writes the final change is above every other one the card has
      emitted, so the card is seen finished however they are flushed. */
  lemma PromptOnTop(c: Config, steps: seq<Step>, e: Change, f: Change)
    requires AllRespond(c) && PromptRun(c, Start(c), steps)
    ensures Exec(c, Start(c), steps).Some?
    ensures var w := Exec(c, Start(c), steps).value;
            && (e in w.changes ==> e.transition >= 1)
            && (e in w.changes && f in w.changes && !e.status.Terminal() && f.status.Terminal() ==>
                  e.transition < f.transition)
  {
    var w0 := Start(c);
    assert UndecidedMsgs(w0) == {} && DecidingHandlers(w0) == {};
    ExecNeat(c, w0, steps);
  }

  /** An activation whose message is answered before its change is written: in
      every campaign such a run ends the card with an unfinished change on top. */
  lemma LateWriteHides(c: Config)
    requires c.first in Sequences(c.commands)
    ensures exists steps, end, e, f :: Reaches(c, Start(c), steps, end) && end.changes == [f, e]
              && f.status.Terminal() && !e.status.Terminal() && e.RowKey() == f.RowKey()
  {
    OneLateReached(c);
    var f, e := Refusal(c, 1), Activation(c, c.first, 0).(transition := 2);
    assert OneLate(c).changes == [f, e];
  }

  /** A card sent two steps, each change written at once: both changes carry
      number 1, so which of them is newest depends on the flushing. */
  lemma SecondStepAmbiguous(c: Config)
    requires c.first in Sequences(c.commands) && ScanNext(c.commands, c.first) != -1
    requires ScanNext(c.commands, c.first) in Sequences(c.commands)
    ensures exists steps, end :: Reaches(c, Start(c), steps, end)
              && forall db: Db :: (forall q :: q in db.states && q.Owner() == CardKey(c.card, c.campaign) ==> q.transition < 1)
                   ==> !Independent(db, end.changes, CardKey(c.card, c.campaign))
  {
    var steps, end, e, f := SecondStepWritten(c);
    var k := CardKey(c.card, c.campaign);
    forall db: Db | forall q :: q in db.states && q.Owner() == k ==> q.transition < 1
      ensures !Independent(db, end.changes, k)
    {
      assert Tops(db.states, end.changes, k, e) && Tops(db.states, end.changes, k, f);
      IndependentExactly(db, end.changes, k);
    }
  }

  lemma SecondStepWritten(c: Config) returns (steps: seq<Step>, end: World, e: Change, f: Change)
    requires c.first in Sequences(c.commands) && ScanNext(c.commands, c.first) != -1
    requires ScanNext(c.commands, c.first) in Sequences(c.commands)
    ensures Reaches(c, Start(c), steps, end) && end.changes == [e, f] && e.ToRow() != f.ToRow()
    ensures e.Owner() == f.Owner() == CardKey(c.card, c.campaign) && e.transition == f.transition == 1
  {
    var next := ScanNext(c.commands, c.first);
    ScanAbove(c.commands, c.first);
    TwoWrittenReached(c);
    steps, end := SECOND_WRITTEN, TwoWritten(c);
    e, f := Activation(c, c.first, 0), Activation(c, next, 1);
  }
}
