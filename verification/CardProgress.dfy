/** Progress of the card protocol: the order in which a card's steps are
    activated, how often, and exactly when the code keeps that order. */
module CardProgress {
  import opened Common
  import opened CardStates
  import opened CardProtocol
  import opened CardTokens
  import opened CardRuns
  import opened CardMisses

  // ------------------------------------------------------------------ the measure

  function Tries(c: Config): nat
    ensures Tries(c) >= 1
  {
    if c.maxRetries < 1 then 1 else c.maxRetries
  }

  function Above(c: Config, step: int): set<int> {
    set s | s in Sequences(c.commands) && s > step
  }

  /** Commands still ahead, then attempts still left on this one. */
  function Rank(c: Config, a: Act): int {
    |Above(c, a.step)| * Tries(c) + (Tries(c) - 1 - a.retry)
  }

  /** Commands have sequences from 0 on and the card starts with the least. */
  ghost predicate Numbered(c: Config) {
    && c.first in Sequences(c.commands)
    && forall s :: s in Sequences(c.commands) ==> c.first <= s && s >= 0
  }

  predicate ActOk(c: Config, a: Act) {
    a.step in Sequences(c.commands) && 0 <= a.retry < Tries(c)
  }

  lemma RetryLowers(c: Config, a: Act)
    ensures Rank(c, Act(a.step, a.retry + 1)) == Rank(c, a) - 1
  {
  }

  lemma AdvanceLowers(c: Config, a: Act, next: int)
    requires ActOk(c, a) && next in Sequences(c.commands) && next > a.step
    ensures Rank(c, Act(next, 0)) < Rank(c, a)
  {
    var here, there, r := Above(c, a.step), Above(c, next), Tries(c);
    assert there < here by {
      assert next in here && next !in there;
    }
    SubsetSize(there, here);
    MultiplyMonotone(|there|, |here| - 1, r);
    assert (|here| - 1) * r == |here| * r - r;
  }

  lemma FirstRank(c: Config)
    requires Numbered(c)
    ensures Rank(c, Act(c.first, 0)) == |Sequences(c.commands)| * Tries(c) - 1
  {
    var all, rest := Sequences(c.commands), Above(c, c.first);
    assert all == rest + {c.first};
    assert |all| == |rest| + 1;
    assert |all| * Tries(c) == |rest| * Tries(c) + Tries(c);
  }

  // ------------------------------------------------------------------- calm runs

  /** The report was found to move its object, or would be. */
  predicate Moves(w: World, h: nat)
    requires h in w.handlers && w.handlers[h].DlrHandler? && w.handlers[h].obj < |w.objs|
  {
    w.handlers[h].passed || Awaiting(w.objs[w.handlers[h].obj].status)
  }

  /** A delivered report in hand that can still move an object of an earlier
      step. */
  predicate Late(w: World, h: nat, step: int) {
    && h in w.handlers && w.handlers[h].DlrHandler? && w.handlers[h].report == Delivered && w.handlers[h].obj < |w.objs|
    && Moves(w, h) && w.objs[w.handlers[h].obj].step < step
  }

  /** No such report is in hand when a later step is sent, and no lookup that
      missed has still to store its object. */
  ghost predicate Calm(w: World, s: Step) {
    s == Activate(Sent) && w.acts != [] ==> w.misses == {} && forall h :: !Late(w, h, w.acts[0].step)
  }

  ghost function ExecCalm(c: Config, w: World, steps: seq<Step>): Option<World>
    decreases |steps|
  {
    if steps == [] then Some(w)
    else if !Enabled(w, steps[0]) || !Calm(w, steps[0]) then None
    else ExecCalm(c, Next(c, w, steps[0]), steps[1..])
  }

  ghost predicate Descending(c: Config, sent: seq<Act>) {
    && (forall i :: 0 <= i < |sent| ==> ActOk(c, sent[i]))
    && (forall i, j :: 0 <= i < j < |sent| ==> Rank(c, sent[i]) > Rank(c, sent[j]) && sent[i].step <= sent[j].step)
  }

  function Last(w: World): Act
    requires w.sent != []
  {
    w.sent[|w.sent| - 1]
  }

  /** An object a decision may be taken on: of the last step sent and, while a
      report can move it, of the last attempt. */
  predicate OnStep(w: World, o: CardState)
    requires w.sent != []
  {
    o.step == Last(w).step && (Awaiting(o.status) ==> o.retry == Last(w).retry)
  }

  ghost predicate HandlerOk(w: World, h: nat)
    requires w.sent != [] && h in w.handlers && w.handlers[h].obj < |w.objs|
  {
    var x, o := w.handlers[h], w.objs[w.handlers[h].obj];
    && (x.Decides() ==> o.step == Last(w).step)
    && (x.DlrHandler? && x.Decides() && Moves(w, h) ==> o.retry == Last(w).retry)
    && (x.DlrHandler? && x.report == Delivered && Moves(w, h) ==> o.step == Last(w).step)
  }

  ghost predicate Current(w: World) {
    && w.misses == {}
    && w.sent != [] && w.cache.Some? && w.cache.value < |w.objs| && OnStep(w, w.objs[w.cache.value])
    && (forall h :: h in w.handlers ==> w.handlers[h].obj < |w.objs| && HandlerOk(w, h))
  }

  ghost predicate Live(w: World) {
    UndecidedMsgs(w) != {} || DecidingHandlers(w) != {}
  }

  /** Before anything is sent there is nothing to act on; afterwards no object
      is of a step beyond the last one sent. */
  ghost predicate Bounded(w: World) {
    && (w.sent == [] ==> w.changes == [] && w.writes == [] && w.handlers == map[])
    && (w.cache.None? || w.misses != {} ==> w.sent == [])
    && (forall h :: h in w.handlers ==> w.handlers[h].obj < |w.objs| && DlrAccepted(w.objs[w.handlers[h].obj].status))
    && (forall i :: 0 <= i < |w.objs| && DlrAccepted(w.objs[i].status) ==> w.sent != [] && w.objs[i].step <= Last(w).step)
  }

  ghost predicate Follows(c: Config, w: World, a: Act) {
    && ActOk(c, a)
    && (w.sent == [] ==> a == Act(c.first, 0))
    && (w.sent != [] ==> Rank(c, a) < Rank(c, Last(w)) && Last(w).step <= a.step)
  }

  ghost predicate Ordered(c: Config, w: World) {
    && Descending(c, w.sent)
    && (w.sent != [] ==> w.sent[0] == Act(c.first, 0))
    && (forall i :: 0 <= i < |w.acts| ==> Follows(c, w, w.acts[i]))
    && (w.acts != [] || Live(w) ==> Bounded(w))
    && (Live(w) ==> Current(w))
  }

  ghost predicate Good(c: Config, w: World) {
    AllRespond(c) && Numbered(c) && Inv(c, w) && Tokens(w) <= 1 && Ordered(c, w)
  }

  lemma OnlyActivation(w: World)
    requires Tokens(w) <= 1 && w.acts != []
    ensures |w.acts| == 1 && !Live(w) && DecidingHandlers(w) == {}
  {
  }

  lemma OnlyDecision(w: World, h: nat)
    requires Tokens(w) <= 1 && h in DecidingHandlers(w)
    ensures w.acts == [] && UndecidedMsgs(w) == {} && DecidingHandlers(w) == {h} && Live(w)
  {
    SubsetSize({h}, DecidingHandlers(w));
  }

  /** Nothing is left to act on. */
  lemma Over(c: Config, w: World, w': World)
    requires Good(c, w) && w'.sent == w.sent && w'.acts == [] && !Live(w')
    ensures Ordered(c, w')
  {
  }

  lemma NotLiveSame(w: World, w': World)
    requires !Live(w) && w'.msgs == w.msgs && w'.handlers == w.handlers
    ensures !Live(w')
  {
    assert UndecidedMsgs(w') == UndecidedMsgs(w) && DecidingHandlers(w') == DecidingHandlers(w);
  }

  lemma SentDescends(c: Config, sent: seq<Act>, a: Act)
    requires Descending(c, sent) && ActOk(c, a)
    requires sent != [] ==> Rank(c, a) < Rank(c, sent[|sent| - 1]) && sent[|sent| - 1].step <= a.step
    ensures Descending(c, sent + [a])
  {
    var more := sent + [a];
    forall i, j | 0 <= i < j < |more|
      ensures Rank(c, more[i]) > Rank(c, more[j]) && more[i].step <= more[j].step
    {
      if j == |sent| && i < |sent| - 1 {
        assert Rank(c, sent[i]) > Rank(c, sent[|sent| - 1]);
      }
    }
  }

  lemma SendOrdered(c: Config, w: World)
    requires Good(c, w) && w.acts != [] && Calm(w, Activate(Sent)) && CommandAt(c.commands, w.acts[0].step).Some?
    ensures Ordered(c, Next(c, w, Activate(Sent)))
  {
    var w', a := Next(c, w, Activate(Sent)), w.acts[0];
    OnlyActivation(w);
    assert Follows(c, w, a);
    SentDescends(c, w.sent, a);
    assert w'.acts == [] && Last(w') == a;
    forall h | h in w'.handlers ensures w'.handlers[h].obj < |w'.objs| && HandlerOk(w', h) {
      var o := w.objs[w.handlers[h].obj];
      assert w'.objs[w'.handlers[h].obj] == o;
      assert h !in DecidingHandlers(w);
      assert !Late(w, h, a.step);
    }
    assert Bounded(w');
  }

  lemma ActivateOrdered(c: Config, w: World, fate: Fate)
    requires Good(c, w) && Enabled(w, Activate(fate)) && Calm(w, Activate(fate))
    ensures Ordered(c, Next(c, w, Activate(fate)))
  {
    var w' := Next(c, w, Activate(fate));
    OnlyActivation(w);
    if fate.Sent? && CommandAt(c.commands, w.acts[0].step).Some? {
      SendOrdered(c, w);
    } else {
      NotLiveSame(w, w');
      Over(c, w, w');
    }
  }

  /** A fetch finds the cached object, or nothing a report could move. */
  lemma FetchOrdered(c: Config, w: World, look: Lookup)
    requires Good(c, w) && Found(w, look) && (w.acts != [] || Live(w))
    ensures var (w1, o) := Fetch(w, look);
            && Bounded(w1) && (w.sent != [] ==> w1 == w && Some(o) == w.cache)
            && o < |w1.objs| && w1 == w.(objs := w1.objs, cache := w1.cache, misses := w1.misses)
  {
    FetchKeeps(c, w, look);
  }

  lemma PeekOrdered(c: Config, w: World, look: Lookup)
    requires Good(c, w) && Found(w, look)
    ensures Ordered(c, Fetch(w, look).0)
  {
    var w' := Fetch(w, look).0;
    if w.acts != [] || Live(w) {
      FetchOrdered(c, w, look);
    }
    if !Live(w) {
      NotLiveSame(w, w');
    }
  }

  lemma LoadDecides(w: World, m: nat, msg: Msg, w': World, h: nat)
    requires m < |w.msgs| && w'.msgs == w.msgs[m := msg] && (msg.Undecided() ==> w.msgs[m].Undecided())
    requires w'.handlers == w.handlers || (h !in w.handlers && w'.handlers.Keys == w.handlers.Keys + {h})
    requires forall g :: g in w.handlers ==> w'.handlers[g] == w.handlers[g]
    requires h in w'.handlers && h !in w.handlers && w'.handlers[h].Decides() ==> w.msgs[m].Undecided()
    ensures Live(w') ==> Live(w)
  {
    if !Live(w) {
      assert forall j :: 0 <= j < |w.msgs| ==> j !in UndecidedMsgs(w);
      assert UndecidedMsgs(w') == {};
      assert forall g :: g in w.handlers ==> g !in DecidingHandlers(w);
      assert w.msgs[m].Undecided() ==> m in UndecidedMsgs(w);
      forall g | g in w'.handlers ensures !w'.handlers[g].Decides() {
        assert g in w.handlers || g == h;
      }
      assert DecidingHandlers(w') == {};
    }
  }

  lemma LoadLive(c: Config, w: World, w': World, h: nat, x: Handler)
    requires Good(c, w) && Live(w) && x.obj == w.cache.value
    requires x.DlrHandler? ==> !x.passed
    requires w'.objs == w.objs && w'.cache == w.cache && w'.sent == w.sent && w'.acts == w.acts
    requires w'.changes == w.changes && w'.writes == w.writes && w'.misses == w.misses
    requires w'.handlers == w.handlers || (w'.handlers == w.handlers[h := x] && DlrAccepted(w.objs[x.obj].status))
    ensures Ordered(c, w')
  {
    forall g | g in w'.handlers ensures w'.handlers[g].obj < |w'.objs| && HandlerOk(w', g) {
      if g in w.handlers && w'.handlers[g] == w.handlers[g] {
        assert HandlerOk(w, g);
      }
    }
  }

  lemma LoadQuiet(c: Config, w: World, w': World)
    requires Good(c, w) && !Live(w') && w'.sent == w.sent && w'.acts == w.acts
    requires w.acts != [] ==> Bounded(w')
    ensures Ordered(c, w')
  {
  }

  /** While an activation waits, a handler is opened only on an object of a
      step already sent. */
  lemma LoadBounded(c: Config, w: World, s: Step)
    requires Good(c, w) && Enabled(w, s) && (s.DlrLoad? || s.MoLoad?) && w.acts != []
    ensures Bounded(Next(c, w, s)) && Next(c, w, s).sent == w.sent
  {
    var w' := Next(c, w, s);
    FetchOrdered(c, w, s.look);
    LoadIs(c, w, s);
    var w1 := Fetch(w, s.look).0;
    assert w'.objs == w1.objs && w'.cache == w1.cache && w'.misses == w1.misses;
    assert w'.changes == w.changes && w'.writes == w.writes && w'.sent == w.sent;
    OpenedBounded(w1, w');
  }

  /** Opening a handler on an accepted object. */
  lemma OpenedBounded(w: World, w': World)
    requires Bounded(w) && w'.objs == w.objs && w'.cache == w.cache && w'.misses == w.misses
    requires w'.changes == w.changes && w'.writes == w.writes && w'.sent == w.sent
    requires forall g :: g in w'.handlers ==>
               (g in w.handlers && w'.handlers[g] == w.handlers[g])
               || (w'.handlers[g].obj < |w.objs| && DlrAccepted(w.objs[w'.handlers[g].obj].status))
    ensures Bounded(w')
  {
    if w.sent == [] {
      assert forall g :: g !in w'.handlers;
    }
  }

  lemma LoadEnds(c: Config, w: World, s: Step)
    requires Good(c, w) && Enabled(w, s) && (s.DlrLoad? || s.MoLoad?)
    ensures Live(Next(c, w, s)) ==> Live(w)
    ensures Next(c, w, s).sent == w.sent && Next(c, w, s).acts == w.acts
  {
    LoadIs(c, w, s);
    LoadDecides(w, s.msg, Marked(w, s), Next(c, w, s), s.handler);
  }

  lemma LoadOnLive(c: Config, w: World, s: Step)
    requires Good(c, w) && Enabled(w, s) && (s.DlrLoad? || s.MoLoad?) && Live(w)
    ensures Ordered(c, Next(c, w, s))
  {
    LoadIs(c, w, s);
    LoadLive(c, w, Next(c, w, s), s.handler,
             if s.DlrLoad? then DlrHandler(w.cache.value, s.report, false) else MoHandler(w.cache.value));
  }

  /** A report or an answer is loaded. */
  lemma LoadOrdered(c: Config, w: World, s: Step)
    requires Good(c, w) && Enabled(w, s) && (s.DlrLoad? || s.MoLoad?)
    ensures Ordered(c, Next(c, w, s))
  {
    if Live(w) {
      LoadOnLive(c, w, s);
    } else {
      LoadEnds(c, w, s);
      if w.acts != [] {
        LoadBounded(c, w, s);
      }
      LoadQuiet(c, w, Next(c, w, s));
    }
  }

  // ----------------------------------------------------------------------- effects

  /** The world after a delivered report has moved an object. */
  function Delivered1(w: World, h: nat): World
    requires h in w.handlers && w.handlers[h].obj < |w.objs|
  {
    var obj := w.handlers[h].obj;
    var o := w.objs[obj];
    w.(handlers := w.handlers - {h}, cache := Some(obj),
       objs := w.objs[obj := o.(status := AwaitingMo, transition := o.transition + 1)])
  }

  lemma DeliveredBounded(w: World, h: nat)
    requires Bounded(w) && h in w.handlers
    ensures Bounded(Delivered1(w, h))
  {
  }

  lemma DeliveredCurrent(w: World, h: nat)
    requires Current(w) && h in w.handlers && w.handlers[h] == DlrHandler(w.handlers[h].obj, Delivered, true)
    requires w.handlers[h].obj < |w.objs|
    ensures Current(Delivered1(w, h))
  {
    var w' := Delivered1(w, h);
    assert HandlerOk(w, h);
    forall g | g in w'.handlers ensures w'.handlers[g].obj < |w'.objs| && HandlerOk(w', g) {
      assert HandlerOk(w, g);
    }
  }

  lemma DeliveredOrdered(c: Config, w: World, h: nat, written: bool)
    requires Good(c, w) && Enabled(w, DlrEffect(h, written)) && w.handlers[h].report == Delivered
    ensures Ordered(c, Next(c, w, DlrEffect(h, written)))
  {
    DeliveredKeeps(c, w, h, written);
    assert Next(c, w, DlrEffect(h, written)) == Delivered1(w, h);
    MovedOrdered(c, w, h);
  }

  lemma MovedOrdered(c: Config, w: World, h: nat)
    requires Good(c, w) && h in w.handlers && w.handlers[h] == DlrHandler(w.handlers[h].obj, Delivered, true)
    requires w.handlers[h].obj < |w.objs|
    ensures Ordered(c, Delivered1(w, h))
  {
    var w' := Delivered1(w, h);
    assert UndecidedMsgs(w') == UndecidedMsgs(w) && DecidingHandlers(w') == DecidingHandlers(w);
    if w.acts != [] || Live(w) {
      DeliveredBounded(w, h);
    }
    if Live(w) {
      DeliveredCurrent(w, h);
    }
  }

  /** The only deciding handler acts on an object of the last step. */
  lemma DecisionCurrent(c: Config, w: World, h: nat)
    requires Good(c, w) && h in DecidingHandlers(w)
    ensures w.acts == [] && w.sent != [] && w.handlers[h].obj < |w.objs| && HandlerOk(w, h)
    ensures ActOk(c, Last(w)) && Bounded(w)
  {
    OnlyDecision(w, h);
    assert HandlerOk(w, h);
  }

  lemma DecisionOver(c: Config, w: World, h: nat, w': World)
    requires Good(c, w) && h in DecidingHandlers(w)
    requires w'.msgs == w.msgs && w'.handlers == w.handlers - {h} && w'.sent == w.sent && w'.acts == []
    ensures Ordered(c, w')
  {
    OnlyDecision(w, h);
    assert UndecidedMsgs(w') == {};
    assert DecidingHandlers(w') == DecidingHandlers(w) - {h};
    Over(c, w, w');
  }

  lemma DecisionQueues(c: Config, w: World, h: nat, a: Act)
    requires Good(c, w) && h in DecidingHandlers(w) && Follows(c, w, a)
    ensures Ordered(c, w.(handlers := w.handlers - {h}, acts := w.acts + [a]))
  {
    var w' := w.(handlers := w.handlers - {h}, acts := w.acts + [a]);
    OnlyDecision(w, h);
    DecisionCurrent(c, w, h);
    assert UndecidedMsgs(w') == {};
    assert DecidingHandlers(w') == DecidingHandlers(w) - {h};
    assert w'.acts == [a] && Last(w') == Last(w);
    assert Bounded(w');
    assert Follows(c, w', a);
  }

  predicate Retries(c: Config, w: World, h: nat)
    requires h in w.handlers && w.handlers[h].obj < |w.objs|
  {
    w.handlers[h] == DlrHandler(w.handlers[h].obj, Failing, true) && w.objs[w.handlers[h].obj].retry + 1 < c.maxRetries
  }

  /** A decided report queues another attempt, or queues nothing. */
  lemma DecidedIs(c: Config, w: World, h: nat, written: bool)
    requires Enabled(w, DlrEffect(h, written)) && w.handlers[h].Decides()
    ensures var w', o := Next(c, w, DlrEffect(h, written)), w.objs[w.handlers[h].obj];
            && w'.msgs == w.msgs && w'.handlers == w.handlers - {h} && w'.sent == w.sent
            && (if Retries(c, w, h) then w' == w.(handlers := w.handlers - {h}, acts := w.acts + [Act(o.step, o.retry + 1)])
                else w'.acts == w.acts)
  {
  }

  lemma DecidedOrdered(c: Config, w: World, h: nat, written: bool)
    requires Good(c, w) && Enabled(w, DlrEffect(h, written)) && w.handlers[h].Decides()
    ensures Ordered(c, Next(c, w, DlrEffect(h, written)))
  {
    var w' := Next(c, w, DlrEffect(h, written));
    assert h in DecidingHandlers(w);
    DecisionCurrent(c, w, h);
    DecidedIs(c, w, h, written);
    if Retries(c, w, h) {
      RetryOrdered(c, w, h);
    } else {
      DecisionOver(c, w, h, w');
    }
  }

  lemma RetryOrdered(c: Config, w: World, h: nat)
    requires Good(c, w) && h in DecidingHandlers(w) && w.handlers[h].obj < |w.objs| && Retries(c, w, h)
    ensures var o := w.objs[w.handlers[h].obj];
            Ordered(c, w.(handlers := w.handlers - {h}, acts := w.acts + [Act(o.step, o.retry + 1)]))
  {
    var o := w.objs[w.handlers[h].obj];
    DecisionCurrent(c, w, h);
    RetryFollows(c, w, o);
    DecisionQueues(c, w, h, Act(o.step, o.retry + 1));
  }

  lemma RetryFollows(c: Config, w: World, o: CardState)
    requires w.sent != [] && ActOk(c, Last(w)) && Act(o.step, o.retry) == Last(w) && o.retry + 1 < c.maxRetries
    ensures Follows(c, w, Act(o.step, o.retry + 1))
  {
    RetryLowers(c, Last(w));
  }

  lemma IdleCurrent(w: World, h: nat)
    requires Current(w)
    ensures Current(w.(handlers := w.handlers - {h}))
  {
    var w' := w.(handlers := w.handlers - {h});
    forall g | g in w'.handlers ensures w'.handlers[g].obj < |w'.objs| && HandlerOk(w', g) {
      assert HandlerOk(w, g);
    }
  }

  /** A report that moves nothing. */
  lemma IdleOrdered(c: Config, w: World, h: nat)
    requires Good(c, w) && h in w.handlers && !w.handlers[h].Decides()
    ensures Ordered(c, w.(handlers := w.handlers - {h}))
  {
    var w' := w.(handlers := w.handlers - {h});
    assert UndecidedMsgs(w') == UndecidedMsgs(w) && DecidingHandlers(w') == DecidingHandlers(w);
    if Live(w) {
      IdleCurrent(w, h);
    }
  }

  lemma DlrEffectOrdered(c: Config, w: World, h: nat, written: bool)
    requires Good(c, w) && Enabled(w, DlrEffect(h, written))
    ensures Ordered(c, Next(c, w, DlrEffect(h, written)))
  {
    if w.handlers[h].Decides() {
      DecidedOrdered(c, w, h, written);
    } else if w.handlers[h].report == Delivered {
      DeliveredOrdered(c, w, h, written);
    } else {
      IdleOrdered(c, w, h);
      assert Next(c, w, DlrEffect(h, written)) == w.(handlers := w.handlers - {h});
    }
  }

  lemma PassedCurrent(w: World, h: nat)
    requires Current(w) && h in w.handlers && w.handlers[h].DlrHandler? && Awaiting(w.objs[w.handlers[h].obj].status)
    ensures Current(w.(handlers := w.handlers[h := w.handlers[h].(passed := true)]))
  {
    var w' := w.(handlers := w.handlers[h := w.handlers[h].(passed := true)]);
    forall g | g in w'.handlers ensures w'.handlers[g].obj < |w'.objs| && HandlerOk(w', g) {
      assert HandlerOk(w, g);
    }
  }

  lemma PassedBounded(w: World, h: nat)
    requires Bounded(w) && h in w.handlers && w.handlers[h].DlrHandler?
    ensures Bounded(w.(handlers := w.handlers[h := w.handlers[h].(passed := true)]))
  {
  }

  lemma PassedOrdered(c: Config, w: World, h: nat)
    requires Good(c, w) && Enabled(w, DlrCheck(h)) && Awaiting(w.objs[w.handlers[h].obj].status)
    ensures Ordered(c, w.(handlers := w.handlers[h := w.handlers[h].(passed := true)]))
  {
    var w' := w.(handlers := w.handlers[h := w.handlers[h].(passed := true)]);
    assert UndecidedMsgs(w') == UndecidedMsgs(w) && DecidingHandlers(w') == DecidingHandlers(w);
    if w.acts != [] || Live(w) {
      PassedBounded(w, h);
    }
    if Live(w) {
      PassedCurrent(w, h);
    }
  }

  lemma DlrCheckOrdered(c: Config, w: World, h: nat)
    requires Good(c, w) && Enabled(w, DlrCheck(h))
    ensures Ordered(c, Next(c, w, DlrCheck(h)))
  {
    if Awaiting(w.objs[w.handlers[h].obj].status) {
      PassedOrdered(c, w, h);
    } else if w.handlers[h].Decides() {
      assert h in DecidingHandlers(w);
      OnlyDecision(w, h);
      DecisionOver(c, w, h, Next(c, w, DlrCheck(h)));
    } else {
      IdleOrdered(c, w, h);
    }
  }

  lemma MoEffectOrdered(c: Config, w: World, h: nat, answer: Answer, written: bool)
    requires Good(c, w) && Enabled(w, MoEffect(h, answer, written))
    ensures Ordered(c, Next(c, w, MoEffect(h, answer, written)))
  {
    var w' := Next(c, w, MoEffect(h, answer, written));
    assert h in DecidingHandlers(w);
    DecisionCurrent(c, w, h);
    var o := w.objs[w.handlers[h].obj];
    ScanFindsLeast(c.commands, o.step);
    var next := ScanNext(c.commands, o.step);
    if w'.acts == [] {
      DecisionOver(c, w, h, w');
    } else {
      AdvanceLowers(c, Last(w), next);
      DecisionQueues(c, w, h, Act(next, 0));
    }
  }

  /** Writing changes nothing that order depends on. */
  lemma WrittenOrdered(c: Config, w: World, w': World)
    requires Good(c, w) && w.sent != [] && w' == w.(writes := w'.writes, changes := w'.changes)
    ensures Ordered(c, w')
  {
    assert UndecidedMsgs(w') == UndecidedMsgs(w) && DecidingHandlers(w') == DecidingHandlers(w);
    if Live(w) {
      forall g | g in w'.handlers ensures w'.handlers[g].obj < |w'.objs| && HandlerOk(w', g) {
        assert HandlerOk(w, g);
      }
    }
  }

  lemma WriteOrdered(c: Config, w: World, i: nat, written: bool)
    requires Good(c, w) && Enabled(w, WriteState(i, written))
    ensures Ordered(c, Next(c, w, WriteState(i, written)))
  {
    var w' := Next(c, w, WriteState(i, written));
    if w.acts != [] || Live(w) {
      WrittenOrdered(c, w, w');
    } else {
      NotLiveSame(w, w');
      Over(c, w, w');
    }
  }

  lemma ThrottleOrdered(c: Config, w: World)
    requires Good(c, w) && w.acts != []
    ensures Ordered(c, Next(c, w, Throttle))
  {
    OnlyActivation(w);
    assert Next(c, w, Throttle) == w;
  }

  /** Only before anything is sent is there a lookup that finds nothing. */
  lemma AbsentOrdered(c: Config, w: World, id: nat)
    requires Good(c, w) && Enabled(w, Absent(id))
    ensures Ordered(c, Next(c, w, Absent(id)))
  {
    var w' := Next(c, w, Absent(id));
    assert UndecidedMsgs(w') == UndecidedMsgs(w) && DecidingHandlers(w') == DecidingHandlers(w);
  }

  lemma OverflowOrdered(c: Config, w: World, look: Lookup, written: bool)
    requires Good(c, w) && Enabled(w, Overflow(look, written))
    ensures Ordered(c, Next(c, w, Overflow(look, written)))
  {
    var w' := Next(c, w, Overflow(look, written));
    OnlyActivation(w);
    NotLiveSame(w, w');
    Over(c, w, w');
  }

  lemma NextOrdered(c: Config, w: World, s: Step)
    requires Good(c, w) && Enabled(w, s) && Calm(w, s)
    ensures Good(c, Next(c, w, s))
  {
    NextKeeps(c, w, s);
    StepOrdered(c, w, s);
  }

  lemma StepOrdered(c: Config, w: World, s: Step)
    requires Good(c, w) && Enabled(w, s) && Calm(w, s)
    ensures Ordered(c, Next(c, w, s))
  {
    match s
    case Activate(fate) => ActivateOrdered(c, w, fate);
    case WriteState(i, written) => WriteOrdered(c, w, i, written);
    case Throttle => ThrottleOrdered(c, w);
    case Absent(id) => AbsentOrdered(c, w, id);
    case Overflow(look, written) => OverflowOrdered(c, w, look, written);
    case Peek(look) => PeekOrdered(c, w, look);
    case DlrLoad(_, _, _, _) => LoadOrdered(c, w, s);
    case DlrCheck(h) => DlrCheckOrdered(c, w, h);
    case DlrEffect(h, written) => DlrEffectOrdered(c, w, h, written);
    case MoLoad(_, _, _) => LoadOrdered(c, w, s);
    case MoEffect(h, answer, written) => MoEffectOrdered(c, w, h, answer, written);
  }

  lemma {:induction false} ExecOrdered(c: Config, w: World, steps: seq<Step>)
    requires Good(c, w) && ExecCalm(c, w, steps).Some?
    ensures Good(c, ExecCalm(c, w, steps).value)
    decreases |steps|
  {
    if steps != [] {
      NextOrdered(c, w, steps[0]);
      ExecOrdered(c, Next(c, w, steps[0]), steps[1..]);
    }
  }

  lemma {:induction false} DescentBound(c: Config, sent: seq<Act>)
    requires Descending(c, sent) && sent != []
    ensures 0 <= Rank(c, sent[|sent| - 1]) <= Rank(c, sent[0]) - (|sent| - 1)
  {
    var last := sent[|sent| - 1];
    assert ActOk(c, last);
    MultiplyMonotone(0, |Above(c, last.step)|, Tries(c));
    if |sent| > 1 {
      var past := sent[..|sent| - 1];
      DescentBound(c, past);
      assert Rank(c, sent[|sent| - 2]) > Rank(c, last);
    }
  }

  // ------------------------------------------------------------------ main results

  lemma StartGood(c: Config)
    requires AllRespond(c) && Numbered(c)
    ensures Good(c, Start(c))
  {
    var w0 := Start(c);
    assert UndecidedMsgs(w0) == {} && DecidingHandlers(w0) == {};
    assert ActOk(c, Act(c.first, 0));
  }

  /** In a calm run the measure of successive activations strictly falls: steps
      are visited in ascending order, and there are at most as many activations
      as commands times attempts. */
  lemma RunTerminates(c: Config, steps: seq<Step>)
    requires AllRespond(c) && Numbered(c) && ExecCalm(c, Start(c), steps).Some?
    ensures var sent := ExecCalm(c, Start(c), steps).value.sent;
            && Descending(c, sent)
            && |sent| <= |Sequences(c.commands)| * Tries(c)
  {
    StartGood(c);
    ExecOrdered(c, Start(c), steps);
    var sent := ExecCalm(c, Start(c), steps).value.sent;
    if sent != [] {
      DescentBound(c, sent);
      FirstRank(c);
    } else {
      MultiplyMonotone(0, |Sequences(c.commands)|, Tries(c));
    }
  }

  // ------------------------------------------------------------- calm is needed

  lemma RepeatNotDescending(c: Config, sent: seq<Act>, a: Act, b: Act)
    requires ActOk(c, a) && b.retry == 0 && b.step <= a.step
    ensures !Descending(c, sent + [a] + [b])
  {
    var all := sent + [a] + [b];
    assert all[|sent|] == a && all[|sent| + 1] == b;
  }

  lemma TwiceNotDescending(c: Config, sent: seq<Act>, a: Act)
    ensures !Descending(c, sent + [a] + [a])
  {
    var all := sent + [a] + [a];
    assert all[|sent|] == a && all[|sent| + 1] == a;
  }

  /** The steps by which a delivered report takes effect. */
  function Taking(w: World, h: nat): seq<Step>
    requires h in w.handlers && w.handlers[h].DlrHandler?
  {
    if w.handlers[h].passed then [DlrEffect(h, true)] else [DlrCheck(h)] + [DlrEffect(h, true)]
  }

  /** A delivered report that can still move its object does so. */
  lemma TakesEffect(c: Config, w0: World, steps: seq<Step>, w: World, h: nat)
    requires AllRespond(c) && Inv(c, w) && Reaches(c, w0, steps, w) && h in w.handlers && w.handlers[h].DlrHandler?
    requires w.handlers[h].report == Delivered && w.handlers[h].obj < |w.objs| && Moves(w, h)
    ensures Reaches(c, w0, steps + Taking(w, h), Delivered1(w, h))
  {
    if w.handlers[h].passed {
      PassedTakesEffect(c, w0, steps, w, h);
    } else {
      var w1 := w.(handlers := w.handlers[h := w.handlers[h].(passed := true)]);
      ReachesNext(c, w0, steps, w, DlrCheck(h));
      PassedInv(c, w, h);
      PassedTakesEffect(c, w0, steps + [DlrCheck(h)], w1, h);
      assert w1.handlers - {h} == w.handlers - {h};
      assert steps + [DlrCheck(h)] + [DlrEffect(h, true)] == steps + Taking(w, h);
    }
  }

  lemma PassedInv(c: Config, w: World, h: nat)
    requires Inv(c, w) && h in w.handlers && w.handlers[h].DlrHandler?
    ensures Inv(c, w.(handlers := w.handlers[h := w.handlers[h].(passed := true)]))
  {
  }

  lemma PassedTakesEffect(c: Config, w0: World, steps: seq<Step>, w: World, h: nat)
    requires AllRespond(c) && Inv(c, w) && Reaches(c, w0, steps, w) && h in w.handlers
    requires w.handlers[h].obj < |w.objs| && w.handlers[h] == DlrHandler(w.handlers[h].obj, Delivered, true)
    ensures Reaches(c, w0, steps + [DlrEffect(h, true)], Delivered1(w, h))
  {
    ReachesNext(c, w0, steps, w, DlrEffect(h, true));
    DeliveredKeeps(c, w, h, true);
  }

  /** The world after sending a while the report of handler h is late. */
  lemma LateSend(c: Config, w: World, h: nat) returns (w2: World)
    requires Good(c, w) && w.acts != [] && Late(w, h, w.acts[0].step)
    ensures Reaches(c, w, [Activate(Sent)] + Taking(w, h), w2)
    ensures var a, o := w.acts[0], w.objs[w.handlers[h].obj];
            && w2.acts == [] && w2.sent == w.sent + [a] && |w2.msgs| == |w.msgs| + 1
            && w2.msgs[|w.msgs|] == Msg(None, false) && h !in w2.handlers
            && w2.cache == Some(w.handlers[h].obj) && w.handlers[h].obj < |w2.objs|
            && w2.objs[w.handlers[h].obj] == o.(status := AwaitingMo, transition := o.transition + 1)
            && Visited(c, o.step)
  {
    var a := w.acts[0];
    OnlyActivation(w);
    assert Follows(c, w, a);
    assert w.acts == [a];
    assert Reaches(c, w, [], w);
    var w1 := Sends(c, w, [], w, a);
    assert [] + [Activate(Sent)] == [Activate(Sent)];
    SendInv(c, w, w1, a);
    TakesEffect(c, w, [Activate(Sent)], w1, h);
    w2 := Delivered1(w1, h);
  }

  lemma SendInv(c: Config, w: World, w1: World, a: Act)
    requires Inv(c, w) && Visited(c, a.step)
    requires w1 == w.(acts := [], objs := w.objs + [CardState(a.step, AwaitingDlr, a.retry, 1)], cache := Some(|w.objs|),
                      msgs := w.msgs + [Msg(None, false)], sent := w.sent + [a], clock := w.clock + 1,
                      writes := w.writes + [Write(|w.objs|, a.step, a.retry, |w.msgs|, w.clock)])
    ensures Inv(c, w1)
  {
  }

  /** From there the answer to the new message is taken on the old object, and
      the card repeats a step. */
  lemma LateAnswer(c: Config, w0: World, steps: seq<Step>, w: World, h: nat, obj: nat, a: Act)
    returns (more: seq<Step>, end: World)
    requires Numbered(c) && Reaches(c, w0, steps, w)
    requires w.acts == [] && w.msgs != [] && w.msgs[|w.msgs| - 1] == Msg(None, false)
    requires h !in w.handlers && w.cache == Some(obj) && obj < |w.objs| && w.objs[obj].status == AwaitingMo
    requires ActOk(c, a) && w.objs[obj].step < a.step && Visited(c, w.objs[obj].step)
    ensures Reaches(c, w0, steps + more, end)
    ensures exists b: Act :: b.retry == 0 && b.step <= a.step && end.sent == w.sent + [b]
  {
    var step, m := w.objs[obj].step, |w.msgs| - 1;
    ScanFindsLeast(c.commands, step);
    var next := ScanNext(c.commands, step);
    var w1 := GoesOn(c, w0, steps, w, m, obj, h);
    var taken := steps + [MoLoad(h, m, Hit)] + [MoEffect(h, Accepted, true)];
    end := Sends(c, w0, taken, w1, Act(next, 0));
    more := [MoLoad(h, m, Hit)] + [MoEffect(h, Accepted, true)] + [Activate(Sent)];
    assert steps + more == taken + [Activate(Sent)];
  }

  lemma LateBreaks(c: Config, w: World, h: nat) returns (rest: seq<Step>, end: World)
    requires Good(c, w) && w.acts != [] && Late(w, h, w.acts[0].step)
    ensures Reaches(c, w, [Activate(Sent)] + rest, end) && !Descending(c, end.sent)
  {
    var a, obj := w.acts[0], w.handlers[h].obj;
    assert Follows(c, w, a);
    var w2 := LateSend(c, w, h);
    rest, end := AnswersLate(c, w, Taking(w, h), w2, h, obj, a);
  }

  lemma AnswersLate(c: Config, w: World, taking: seq<Step>, w2: World, h: nat, obj: nat, a: Act)
    returns (rest: seq<Step>, end: World)
    requires Numbered(c) && Reaches(c, w, [Activate(Sent)] + taking, w2) && w2.sent == w.sent + [a]
    requires w2.acts == [] && w2.msgs != [] && w2.msgs[|w2.msgs| - 1] == Msg(None, false)
    requires h !in w2.handlers && w2.cache == Some(obj) && obj < |w2.objs| && w2.objs[obj].status == AwaitingMo
    requires ActOk(c, a) && w2.objs[obj].step < a.step && Visited(c, w2.objs[obj].step)
    ensures Reaches(c, w, [Activate(Sent)] + rest, end) && !Descending(c, end.sent)
  {
    var more;
    more, end := LateAnswer(c, w, [Activate(Sent)] + taking, w2, h, obj, a);
    var b: Act :| b.retry == 0 && b.step <= a.step && end.sent == w2.sent + [b];
    RepeatNotDescending(c, w.sent, a, b);
    rest := taking + more;
    assert [Activate(Sent)] + taking + more == [Activate(Sent)] + rest;
  }

  /** A card can be sent more than one message: it has a second step or a second
      attempt. */
  predicate CanGoOn(c: Config) {
    Above(c, c.first) != {} || Tries(c) > 1
  }

  lemma CanGoOnFits(c: Config)
    requires AllRespond(c) && Numbered(c)
    ensures CanGoOn(c) <==> Fit(c)
  {
    ScanFindsLeast(c.commands, c.first);
    if ScanNext(c.commands, c.first) == -1 {
      assert Above(c, c.first) == {};
    } else {
      assert ScanNext(c.commands, c.first) in Above(c, c.first);
    }
  }

  lemma MissBreaks(c: Config, w: World) returns (rest: seq<Step>, end: World)
    requires Good(c, w) && w.acts != [] && w.misses != {} && CanGoOn(c)
    ensures Reaches(c, w, [Activate(Sent)] + rest, end) && !Descending(c, end.sent)
  {
    OnlyActivation(w);
    assert Follows(c, w, w.acts[0]);
    assert w.acts == [Act(c.first, 0)];
    CanGoOnFits(c);
    var id :| id in w.misses;
    rest, end := MissRepeats(c, w, id);
    TwiceNotDescending(c, w.sent + [Act(c.first, 0)], Further(c));
  }

  /** Wherever a calm run has got to, an activation that is not calm can be
      followed by steps that break the order, unless the card has but one step and
      one attempt. */
  lemma UncalmBreaks(c: Config, w: World)
    requires Good(c, w) && w.acts != [] && !Calm(w, Activate(Sent)) && CanGoOn(c)
    ensures exists rest, end :: Reaches(c, w, [Activate(Sent)] + rest, end) && !Descending(c, end.sent)
  {
    if w.misses != {} {
      var rest, end := MissBreaks(c, w);
    } else {
      var h :| Late(w, h, w.acts[0].step);
      var rest, end := LateBreaks(c, w, h);
    }
  }

  /** Whatever happens, the card's steps are sent in order. */
  ghost predicate AlwaysOrdered(c: Config) {
    forall steps, end :: Reaches(c, Start(c), steps, end) ==> Descending(c, end.sent)
  }

  ghost predicate CalmReaches(c: Config, w: World, steps: seq<Step>, end: World) {
    ExecCalm(c, w, steps) == Some(end)
  }

  lemma CalmStep(c: Config, w: World, s: Step, steps: seq<Step>, end: World)
    requires Enabled(w, s) && Calm(w, s) && CalmReaches(c, Next(c, w, s), steps, end)
    ensures CalmReaches(c, w, [s] + steps, end)
  {
    assert ([s] + steps)[1..] == steps;
  }

  /** The first message sent and its delivered report in hand. */
  function Reported(c: Config): World {
    OneSent(c).(msgs := [Msg(Some(Delivered), false)], handlers := map[0 := DlrHandler(0, Delivered, false)])
  }

  lemma ReportedCalm(c: Config, steps: seq<Step>, end: World)
    requires c.first in Sequences(c.commands) && CalmReaches(c, Reported(c), steps, end)
    ensures CalmReaches(c, Start(c), [Activate(Sent)] + ([DlrLoad(0, 0, Delivered, Hit)] + steps), end)
  {
    CommandAtFacts(c.commands, c.first);
    var s := DlrLoad(0, 0, Delivered, Hit);
    assert Next(c, Start(c), Activate(Sent)) == OneSent(c);
    assert map[][0 := DlrHandler(0, Delivered, false)] == map[0 := DlrHandler(0, Delivered, false)];
    assert Next(c, OneSent(c), s) == Reported(c);
    CalmStep(c, OneSent(c), s, steps, end);
    CalmStep(c, Start(c), Activate(Sent), [s] + steps, end);
  }

  /** Then its answer overtakes the report. */
  lemma AnswerOvertakes(c: Config) returns (steps: seq<Step>, w: World)
    requires c.first in Sequences(c.commands) && ScanNext(c.commands, c.first) != -1
    ensures CalmReaches(c, Reported(c), steps, w) && w.acts == [Act(ScanNext(c.commands, c.first), 0)]
    ensures w.objs == [NewObject(c.first)] && 0 in w.handlers && w.handlers[0] == DlrHandler(0, Delivered, false)
    ensures w.misses == {}
  {
    CommandAtFacts(c.commands, c.first);
    var s3, s4 := MoLoad(1, 0, Hit), MoEffect(1, Accepted, true);
    var w3 := Next(c, Reported(c), s3);
    assert w3.handlers[0] == DlrHandler(0, Delivered, false) && w3.handlers[1] == MoHandler(0);
    w := Next(c, w3, s4);
    assert CalmReaches(c, w, [], w);
    CalmStep(c, w3, s4, [], w);
    CalmStep(c, Reported(c), s3, [s4] + [], w);
    steps := [s3] + ([s4] + []);
  }

  /** In every campaign with a second step a calm run leads to a late report, no
      lookup having missed: the answer overtakes the report. */
  lemma ReportOvertaken(c: Config) returns (steps: seq<Step>, w: World)
    requires Numbered(c) && Above(c, c.first) != {}
    ensures CalmReaches(c, Start(c), steps, w) && w.acts != [] && Late(w, 0, w.acts[0].step) && w.misses == {}
  {
    ScanFindsLeast(c.commands, c.first);
    var above :| above in Above(c, c.first);
    var rest;
    rest, w := AnswerOvertakes(c);
    ReportedCalm(c, rest, w);
    steps := [Activate(Sent)] + ([DlrLoad(0, 0, Delivered, Hit)] + rest);
  }

  // -------------------------------------------------------- one step, one attempt

  /** Nothing but the first activation is ever queued. */
  ghost predicate Lone(c: Config, w: World) {
    && |w.sent| + |w.acts| <= 1
    && (forall a :: a in w.sent || a in w.acts ==> a == Act(c.first, 0))
    && (forall i :: 0 <= i < |w.objs| && DlrAccepted(w.objs[i].status) ==> w.objs[i].retry >= 0)
    && (forall h :: h in w.handlers ==> w.handlers[h].obj < |w.objs| && w.objs[w.handlers[h].obj].retry >= 0)
    && (forall i :: 0 <= i < |w.writes| ==> w.writes[i].retry >= 0)
    && (forall e :: e in w.changes && DlrAccepted(e.status) ==> e.retry >= 0)
  }

  lemma NothingFurther(c: Config, step: int)
    requires Numbered(c) && !CanGoOn(c) && Visited(c, step)
    ensures ScanNext(c.commands, step) == -1 && c.maxRetries <= 1
  {
    ScanFindsLeast(c.commands, step);
    assert ScanNext(c.commands, step) != -1 ==> ScanNext(c.commands, step) in Above(c, c.first);
  }

  lemma FetchLone(c: Config, w: World, look: Lookup)
    requires Lone(c, w) && Found(w, look)
    ensures Lone(c, Fetch(w, look).0)
  {
  }

  lemma FinishLone(c: Config, w: World, obj: nat, status: Status, retry: int, from: Status, how: End, written: bool)
    requires Lone(c, w) && obj < |w.objs| && status.Terminal()
    ensures Lone(c, Finish(c, w, obj, status, retry, from, how, written))
  {
  }

  lemma OverflowLone(c: Config, w: World, look: Lookup, written: bool)
    requires Lone(c, w) && w.acts != [] && Found(w, look)
    ensures Lone(c, OverflowStep(c, w, look, written))
  {
    var w0 := w.(acts := w.acts[1..]);
    assert Lone(c, w0);
    FetchLone(c, w0, look);
    var (w1, o) := Fetch(w0, look);
    if o < |w1.objs| && !w1.objs[o].status.Terminal() {
      FinishLone(c, w1, o, Failed, 0, InProgress, Overflowed, written);
    }
  }

  lemma LoadLone(c: Config, w: World, s: Step)
    requires Lone(c, w) && Enabled(w, s) && (s.DlrLoad? || s.MoLoad?)
    ensures Lone(c, Next(c, w, s))
  {
    var w0 := w.(msgs := w.msgs[s.msg := Marked(w, s)]);
    FetchLone(c, w0, s.look);
    LoadIs(c, w, s);
    var (w1, o) := Fetch(w0, s.look);
    OpenedLone(c, w1, Next(c, w, s));
  }

  lemma OpenedLone(c: Config, w: World, w': World)
    requires Lone(c, w) && w' == w.(handlers := w'.handlers)
    requires forall g :: g in w'.handlers ==>
               (g in w.handlers && w'.handlers[g] == w.handlers[g])
               || (w'.handlers[g].obj < |w.objs| && DlrAccepted(w.objs[w'.handlers[g].obj].status))
    ensures Lone(c, w')
  {
  }

  lemma ClosedLone(c: Config, w: World, h: nat)
    requires Lone(c, w)
    ensures Lone(c, w.(handlers := w.handlers - {h}))
  {
  }

  lemma DlrEffectLone(c: Config, w: World, h: nat, written: bool)
    requires AllRespond(c) && Numbered(c) && !CanGoOn(c) && Inv(c, w) && Lone(c, w) && Enabled(w, DlrEffect(h, written))
    ensures Lone(c, DlrEffectStep(c, w, h, written))
  {
    var w0, obj := w.(handlers := w.handlers - {h}), w.handlers[h].obj;
    ClosedLone(c, w, h);
    NothingFurther(c, w.objs[obj].step);
    match w.handlers[h].report
    case Unrecognised =>
    case Delivered => DeliveredKeeps(c, w, h, written);
    case Partial => FinishLone(c, w0, obj, Failed, 0, Pending, PartSubmitted, written);
    case Failing => FinishLone(c, w0, obj, Failed, w.objs[obj].retry + 1, InProgress, Exhausted, written);
  }

  lemma MoEffectLone(c: Config, w: World, h: nat, answer: Answer, written: bool)
    requires Numbered(c) && !CanGoOn(c) && Inv(c, w) && Lone(c, w) && Enabled(w, MoEffect(h, answer, written))
    ensures Lone(c, MoEffectStep(c, w, h, answer, written))
  {
    var w0, obj := w.(handlers := w.handlers - {h}), w.handlers[h].obj;
    ClosedLone(c, w, h);
    NothingFurther(c, w.objs[obj].step);
    FinishLone(c, w0, obj, Completed, 0, InProgress, Accomplished, written);
    FinishLone(c, w0, obj, Failed, 0, InProgress, Declined, written);
  }

  lemma ActivateLone(c: Config, w: World, fate: Fate)
    requires Lone(c, w) && w.acts != []
    ensures Lone(c, ActivateStep(c, w, fate))
  {
    assert w.acts[0] in w.acts && w.acts == [w.acts[0]];
  }

  lemma WriteLone(c: Config, w: World, i: nat, written: bool)
    requires Lone(c, w) && Enabled(w, WriteState(i, written))
    ensures Lone(c, WriteStep(c, w, i, written))
  {
  }

  lemma NextLone(c: Config, w: World, s: Step)
    requires AllRespond(c) && Numbered(c) && !CanGoOn(c) && Inv(c, w) && Lone(c, w) && Enabled(w, s)
    ensures Lone(c, Next(c, w, s))
  {
    match s
    case Activate(fate) => ActivateLone(c, w, fate);
    case WriteState(i, written) => WriteLone(c, w, i, written);
    case Throttle => assert w.acts[1..] + [w.acts[0]] == w.acts;
    case Absent(_) =>
    case Overflow(look, written) => OverflowLone(c, w, look, written);
    case Peek(look) => FetchLone(c, w, look);
    case DlrLoad(_, _, _, _) => LoadLone(c, w, s);
    case DlrCheck(h) => ClosedLone(c, w, h);
    case DlrEffect(h, written) => DlrEffectLone(c, w, h, written);
    case MoLoad(_, _, _) => LoadLone(c, w, s);
    case MoEffect(h, answer, written) => MoEffectLone(c, w, h, answer, written);
  }

  lemma {:induction false} ExecLone(c: Config, w: World, steps: seq<Step>)
    requires AllRespond(c) && Numbered(c) && !CanGoOn(c) && Inv(c, w) && Lone(c, w) && Exec(c, w, steps).Some?
    ensures Lone(c, Exec(c, w, steps).value)
    decreases |steps|
  {
    if steps != [] {
      NextKeeps(c, w, steps[0]);
      NextLone(c, w, steps[0]);
      ExecLone(c, Next(c, w, steps[0]), steps[1..]);
    }
  }

  /** Which campaigns keep the order in every run: those with one step and one
      attempt, whose cards are sent one message at most. */
  lemma AlwaysOrderedExactly(c: Config)
    requires AllRespond(c) && Numbered(c)
    ensures AlwaysOrdered(c) <==> !CanGoOn(c)
  {
    if CanGoOn(c) {
      CanGoOnFits(c);
      var w := Start(c).(misses := {0});
      assert Reaches(c, Start(c), [], Start(c));
      ReachesNext(c, Start(c), [], Start(c), Absent(0));
      assert Next(c, Start(c), Absent(0)) == w;
      var rest, end := MissRepeats(c, w, 0);
      ReachesThen(c, Start(c), [] + [Absent(0)], w, [Activate(Sent)] + rest, end);
      TwiceNotDescending(c, [] + [Act(c.first, 0)], Further(c));
    } else {
      forall steps, end | Reaches(c, Start(c), steps, end) ensures Descending(c, end.sent) {
        LoneSends(c, steps);
      }
    }
  }

  lemma LoneSends(c: Config, steps: seq<Step>)
    requires AllRespond(c) && Numbered(c) && !CanGoOn(c) && Exec(c, Start(c), steps).Some?
    ensures var sent := Exec(c, Start(c), steps).value.sent; |sent| <= 1 && Descending(c, sent)
  {
    ExecLone(c, Start(c), steps);
    var sent := Exec(c, Start(c), steps).value.sent;
    forall i | 0 <= i < |sent| ensures ActOk(c, sent[i]) {
      assert sent[i] in sent;
    }
  }
}
