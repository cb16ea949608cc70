/** How many messages a card can be sent.  Over all runs there is no bound, because
    of lookups that miss; without them, and with each object put back by one report
    only, there is one. */
module CardBound {
  import opened Common
  import opened CardStates
  import opened CardProtocol
  import opened CardTokens
  import opened CardRuns
  import opened CardMisses
  import opened CardProgress

  // ----------------------------------------------------------- what is still to come

  function Power(b: nat, n: nat): nat {
    if n == 0 then 1 else b * Power(b, n - 1)
  }

  lemma {:induction false} PowerPositive(b: nat, n: nat)
    requires b > 0
    ensures Power(b, n) >= 1
  {
    if n > 0 {
      PowerPositive(b, n - 1);
      MultiplyMonotone(1, Power(b, n - 1), b);
    }
  }

  /** Messages that going on from a step may still lead to. */
  function Onward(c: Config, step: int): (n: nat) {
    PowerPositive(Tries(c) + 1, |Above(c, step)|);
    Power(Tries(c) + 1, |Above(c, step)|) - 1
  }

  /** Messages that an activation may lead to, itself included: one for each
      attempt left, and going on from each of them and once more. */
  function Worth(c: Config, step: int, retry: int): int {
    (Tries(c) - retry) + (Tries(c) - retry + 1) * Onward(c, step)
  }

  lemma RetryWorth(c: Config, step: int, retry: int)
    ensures Worth(c, step, retry) == 1 + Onward(c, step) + Worth(c, step, retry + 1)
  {
    var n, x := Onward(c, step), Tries(c) - retry;
    assert (x + 1) * n == x * n + n;
  }

  lemma WorthCovers(c: Config, step: int, retry: int)
    requires retry < Tries(c)
    ensures Worth(c, step, retry + 1) >= Onward(c, step)
  {
    MultiplyMonotone(1, Tries(c) - retry, Onward(c, step));
  }

  lemma FirstWorth(c: Config, step: int)
    ensures Worth(c, step, 0) == Power(Tries(c) + 1, |Above(c, step)| + 1) - 1
  {
    var t, n := Tries(c), Onward(c, step);
    assert (t + 1) * (n + 1) == (t + 1) * n + t + 1;
  }

  /** Going on from a step is activating the next one. */
  lemma NextWorth(c: Config, step: int)
    requires step >= -1 && ScanNext(c.commands, step) != -1
    ensures Worth(c, ScanNext(c.commands, step), 0) == Onward(c, step)
  {
    var next := ScanNext(c.commands, step);
    ScanFindsLeast(c.commands, step);
    assert Above(c, step) == Above(c, next) + {next};
    assert |Above(c, step)| == |Above(c, next)| + 1;
    FirstWorth(c, next);
  }

  // ---------------------------------------------------------------- the objects

  /** What a report yet to move the object may add. */
  function Back(c: Config, o: CardState): nat {
    if Awaiting(o.status) then Onward(c, o.step) else 0
  }

  function Backs(c: Config, objs: seq<CardState>): nat {
    if objs == [] then 0 else Backs(c, objs[..|objs| - 1]) + Back(c, objs[|objs| - 1])
  }

  /** What a decision on the object may lead to. */
  function Decision(c: Config, o: CardState): int {
    if Awaiting(o.status) then Worth(c, o.step, o.retry + 1) else Onward(c, o.step)
  }

  lemma BacksMore(c: Config, objs: seq<CardState>, o: CardState)
    ensures Backs(c, objs + [o]) == Backs(c, objs) + Back(c, o)
  {
    assert (objs + [o])[..|objs|] == objs;
  }

  lemma {:induction false} BacksSet(c: Config, objs: seq<CardState>, i: nat, o: CardState)
    requires i < |objs|
    ensures Backs(c, objs[i := o]) == Backs(c, objs) - Back(c, objs[i]) + Back(c, o)
  {
    var init, objs' := objs[..|objs| - 1], objs[i := o];
    if i == |objs| - 1 {
      assert objs'[..|objs| - 1] == init;
    } else {
      BacksSet(c, init, i, o);
      assert objs'[..|objs| - 1] == init[i := o];
    }
  }

  // ------------------------------------------------------------------ invariant

  function Bound(c: Config): int {
    Worth(c, c.first, 0)
  }

  predicate Fitting(c: Config, o: CardState) {
    Awaiting(o.status) ==> ActOk(c, Act(o.step, o.retry))
  }

  ghost predicate Alive(w: World) {
    w.acts != [] || Live(w)
  }

  ghost predicate Ready(c: Config, w: World) {
    && (forall i :: 0 <= i < |w.objs| ==> Fitting(c, w.objs[i]))
    && (forall i :: 0 <= i < |w.acts| ==> ActOk(c, w.acts[i]))
    && (w.sent == [] ==> w.changes == [] && w.writes == [] && w.msgs == [] && w.handlers == map[])
    && (w.sent != [] ==> w.cache.Some? && w.misses == {})
    && (w.cache.Some? ==> w.cache.value < |w.objs|)
    && (forall h :: h in w.handlers ==> HandReady(c, w, w.handlers[h]))
  }

  /** A report that passed its test did so on an attempt of a step. */
  predicate HandReady(c: Config, w: World, x: Handler) {
    && x.obj < |w.objs|
    && (x.DlrHandler? && x.passed ==> ActOk(c, Act(w.objs[x.obj].step, w.objs[x.obj].retry)))
  }

  /** What the handler's decision may lead to. */
  function HandDecision(c: Config, w: World, x: Handler): int
    requires x.obj < |w.objs|
  {
    var o := w.objs[x.obj];
    if x.DlrHandler? && x.passed then Worth(c, o.step, o.retry + 1) else Decision(c, o)
  }

  /** Sent, and what objects may still add. */
  function Spent(c: Config, w: World): nat {
    |w.sent| + Backs(c, w.objs)
  }

  ghost predicate Affords(c: Config, w: World)
    requires Ready(c, w)
  {
    && Spent(c, w) <= Bound(c)
    && (forall i :: 0 <= i < |w.acts| ==> Spent(c, w) + Worth(c, w.acts[i].step, w.acts[i].retry) <= Bound(c))
    && (forall h :: h in w.handlers && w.handlers[h].Decides() ==>
          HandReady(c, w, w.handlers[h]) && Spent(c, w) + HandDecision(c, w, w.handlers[h]) <= Bound(c))
    && (UndecidedMsgs(w) != {} ==> w.cache.Some? && Spent(c, w) + Decision(c, w.objs[w.cache.value]) <= Bound(c))
  }

  ghost predicate Solvent(c: Config, w: World) {
    |w.sent| <= Bound(c) && (Alive(w) ==> Ready(c, w) && Affords(c, w))
  }

  ghost predicate Sound(c: Config, w: World) {
    AllRespond(c) && Numbered(c) && Inv(c, w) && Tokens(w) <= 1 && Solvent(c, w)
  }

  /** No activation is sent while a lookup that missed is outstanding, and a delivered
      report takes effect only if no other has moved its object since its test. */
  predicate Tidy(w: World, s: Step) {
    && (s == Activate(Sent) ==> w.misses == {})
    && (s.DlrEffect? && s.handler in w.handlers && w.handlers[s.handler].obj < |w.objs| ==>
          (w.handlers[s.handler].DlrHandler? && w.handlers[s.handler].report == Delivered ==>
             Awaiting(w.objs[w.handlers[s.handler].obj].status)))
  }

  ghost predicate TidyRun(c: Config, w: World, steps: seq<Step>)
    decreases |steps|
  {
    steps == [] || (Enabled(w, steps[0]) && Tidy(w, steps[0]) && TidyRun(c, Next(c, w, steps[0]), steps[1..]))
  }

  lemma DecisionNatural(c: Config, o: CardState)
    requires Fitting(c, o)
    ensures Decision(c, o) >= Onward(c, o.step)
  {
    if Awaiting(o.status) {
      WorthCovers(c, o.step, o.retry);
    }
  }

  /** Nothing is left to act on. */
  lemma DeadSolvent(c: Config, w: World, w': World)
    requires Solvent(c, w) && w'.sent == w.sent && !Alive(w')
    ensures Solvent(c, w')
  {
  }

  // ------------------------------------------------------------------------ steps

  lemma SendReady(c: Config, w: World, w': World, a: Act)
    requires Ready(c, w) && ActOk(c, a)
    requires w'.objs == w.objs + [CardState(a.step, AwaitingDlr, a.retry, 1)] && w'.cache == Some(|w.objs|) && w'.misses == {}
    requires w'.acts == [] && w'.sent == w.sent + [a] && w'.handlers == w.handlers
    ensures Ready(c, w')
  {
    forall h | h in w'.handlers ensures HandReady(c, w', w'.handlers[h]) {
      assert HandReady(c, w, w.handlers[h]);
    }
  }

  lemma SendSolvent(c: Config, w: World)
    requires Sound(c, w) && w.acts != [] && w.misses == {} && CommandAt(c.commands, w.acts[0].step).Some?
    ensures Solvent(c, Next(c, w, Activate(Sent)))
  {
    var w', a := Next(c, w, Activate(Sent)), w.acts[0];
    var o := CardState(a.step, AwaitingDlr, a.retry, 1);
    OnlyActivation(w);
    assert ActOk(c, a);
    SendReady(c, w, w', a);
    BacksMore(c, w.objs, o);
    RetryWorth(c, a.step, a.retry);
    assert Spent(c, w') + Decision(c, o) == Spent(c, w) + Worth(c, a.step, a.retry);
    DecisionNatural(c, o);
    assert forall h :: h in w'.handlers ==> h !in DecidingHandlers(w);
  }

  lemma ActivateSolvent(c: Config, w: World, fate: Fate)
    requires Sound(c, w) && w.acts != [] && (fate.Sent? ==> w.misses == {})
    ensures Solvent(c, Next(c, w, Activate(fate)))
  {
    var w' := Next(c, w, Activate(fate));
    OnlyActivation(w);
    if fate.Sent? && CommandAt(c.commands, w.acts[0].step).Some? {
      SendSolvent(c, w);
    } else {
      NotLiveSame(w, w');
      DeadSolvent(c, w, w');
    }
  }

  /** The same objects, messages, handlers and activations. */
  lemma SameSolvent(c: Config, w: World, w': World)
    requires Solvent(c, w) && w'.objs == w.objs && w'.cache == w.cache && w'.acts == w.acts && w'.msgs == w.msgs
    requires Alive(w) && w.sent != [] ==> w'.misses == w.misses
    requires w'.handlers == w.handlers && w'.sent == w.sent && (w'.sent == [] && Alive(w) ==> w'.changes == [] && w'.writes == [])
    ensures Solvent(c, w')
  {
    assert UndecidedMsgs(w') == UndecidedMsgs(w) && DecidingHandlers(w') == DecidingHandlers(w);
    if Alive(w) {
      SameReady(c, w, w');
    }
  }

  lemma SameReady(c: Config, w: World, w': World)
    requires Ready(c, w) && w'.objs == w.objs && w'.cache == w.cache && w'.acts == w.acts && w'.msgs == w.msgs
    requires (w.sent != [] ==> w'.misses == w.misses)
    requires w'.handlers == w.handlers && w'.sent == w.sent && (w'.sent == [] ==> w'.changes == [] && w'.writes == [])
    ensures Ready(c, w') && (Affords(c, w) ==> Affords(c, w'))
  {
    assert UndecidedMsgs(w') == UndecidedMsgs(w);
    forall h | h in w'.handlers ensures HandReady(c, w', w'.handlers[h]) {
      assert HandReady(c, w, w.handlers[h]);
    }
  }

  lemma WriteSolvent(c: Config, w: World, i: nat, written: bool)
    requires Sound(c, w) && Enabled(w, WriteState(i, written))
    ensures Solvent(c, Next(c, w, WriteState(i, written)))
  {
    SameSolvent(c, w, Next(c, w, WriteState(i, written)));
  }

  lemma AbsentSolvent(c: Config, w: World, id: nat)
    requires Sound(c, w) && Enabled(w, Absent(id))
    ensures Solvent(c, Next(c, w, Absent(id)))
  {
    SameSolvent(c, w, Next(c, w, Absent(id)));
  }

  lemma OverflowSolvent(c: Config, w: World, look: Lookup, written: bool)
    requires Sound(c, w) && Enabled(w, Overflow(look, written))
    ensures Solvent(c, Next(c, w, Overflow(look, written)))
  {
    var w' := Next(c, w, Overflow(look, written));
    OnlyActivation(w);
    NotLiveSame(w, w');
    DeadSolvent(c, w, w');
  }

  /** While something can still happen, only before the first message does a lookup
      store an object, of the initial row. */
  lemma FetchReady(c: Config, w: World, look: Lookup)
    requires Ready(c, w) && Found(w, look)
    ensures var w' := Fetch(w, look).0;
            Ready(c, w') && Backs(c, w'.objs) == Backs(c, w.objs) && (w.sent != [] ==> w' == w)
  {
    if look.Miss? {
      BacksMore(c, w.objs, look.row);
    }
  }

  lemma PeekSolvent(c: Config, w: World, look: Lookup)
    requires Sound(c, w) && Found(w, look)
    ensures Solvent(c, Fetch(w, look).0)
  {
    var w' := Fetch(w, look).0;
    assert UndecidedMsgs(w') == UndecidedMsgs(w) && DecidingHandlers(w') == DecidingHandlers(w);
    if Alive(w) {
      FetchReady(c, w, look);
    } else {
      DeadSolvent(c, w, w');
    }
  }

  /** A load on the cached object. */
  lemma LoadAffords(c: Config, w: World, w': World, m: nat, msg: Msg, h: nat, x: Handler)
    requires Ready(c, w) && Affords(c, w) && m < |w.msgs| && w.cache.Some? && x.obj == w.cache.value
    requires x.DlrHandler? ==> !x.passed
    requires w'.msgs == w.msgs[m := msg] && (msg.Undecided() || x.Decides() ==> w.msgs[m].Undecided())
    requires w'.objs == w.objs && w'.cache == w.cache && w'.sent == w.sent && w'.acts == w.acts
    requires w'.changes == w.changes && w'.writes == w.writes && w'.misses == w.misses
    requires w'.handlers == w.handlers || w'.handlers == w.handlers[h := x]
    ensures Ready(c, w') && Affords(c, w')
  {
    assert w.sent != [];
    forall g | g in w'.handlers ensures HandReady(c, w', w'.handlers[g]) {
      assert g in w.handlers ==> HandReady(c, w, w.handlers[g]);
    }
    assert w.msgs[m].Undecided() ==> m in UndecidedMsgs(w);
    if i :| i in UndecidedMsgs(w') {
      assert i != m ==> i in UndecidedMsgs(w);
    }
  }

  lemma LoadDead(c: Config, w: World, s: Step)
    requires Enabled(w, s) && (s.DlrLoad? || s.MoLoad?) && !Alive(w)
    ensures !Alive(Next(c, w, s)) && Next(c, w, s).sent == w.sent
  {
    LoadIs(c, w, s);
    LoadDecides(w, s.msg, Marked(w, s), Next(c, w, s), s.handler);
  }

  lemma LoadSolvent(c: Config, w: World, s: Step)
    requires Sound(c, w) && Enabled(w, s) && (s.DlrLoad? || s.MoLoad?)
    ensures Solvent(c, Next(c, w, s))
  {
    var w' := Next(c, w, s);
    if Alive(w) {
      assert w.sent != [] && w.cache.Some?;
      LoadIs(c, w, s);
      LoadAffords(c, w, w', s.msg, Marked(w, s), s.handler,
                  if s.DlrLoad? then DlrHandler(w.cache.value, s.report, false) else MoHandler(w.cache.value));
    } else {
      LoadDead(c, w, s);
    }
  }

  // ---------------------------------------------------------------------- effects

  /** A delivered report moves the object: what the object might have added is now
      the most a decision on it can lead to. */
  lemma MovedSpends(c: Config, w: World, h: nat)
    requires h in w.handlers && w.handlers[h].obj < |w.objs| && Awaiting(w.objs[w.handlers[h].obj].status)
    ensures var w', o := Delivered1(w, h), w.objs[w.handlers[h].obj];
            && Spent(c, w') == Spent(c, w) - Onward(c, o.step)
            && Decision(c, w'.objs[w.handlers[h].obj]) == Onward(c, o.step)
  {
    var obj := w.handlers[h].obj;
    BacksSet(c, w.objs, obj, Delivered1(w, h).objs[obj]);
  }

  lemma MovedReady(c: Config, w: World, h: nat)
    requires Ready(c, w) && h in w.handlers && w.handlers[h].obj < |w.objs|
    ensures Ready(c, Delivered1(w, h))
  {
    var w' := Delivered1(w, h);
    forall g | g in w'.handlers ensures HandReady(c, w', w'.handlers[g]) {
      assert HandReady(c, w, w.handlers[g]);
    }
  }

  lemma MovedAffords(c: Config, w: World, h: nat)
    requires Ready(c, w) && Affords(c, w) && h in w.handlers && !w.handlers[h].Decides() && w.handlers[h].obj < |w.objs|
    requires Awaiting(w.objs[w.handlers[h].obj].status) && Ready(c, Delivered1(w, h))
    ensures Affords(c, Delivered1(w, h))
  {
    var w', obj := Delivered1(w, h), w.handlers[h].obj;
    MovedSpends(c, w, h);
    assert UndecidedMsgs(w') == UndecidedMsgs(w);
    forall g | g in w'.handlers && w'.handlers[g].Decides()
      ensures HandReady(c, w', w'.handlers[g]) && Spent(c, w') + HandDecision(c, w', w'.handlers[g]) <= Bound(c)
    {
      assert HandReady(c, w', w'.handlers[g]);
      assert w'.handlers[g] == w.handlers[g];
      assert w.handlers[g].obj != obj ==> w'.objs[w.handlers[g].obj] == w.objs[w.handlers[g].obj];
    }
  }

  lemma DeliveredSolvent(c: Config, w: World, h: nat, written: bool)
    requires Sound(c, w) && Enabled(w, DlrEffect(h, written)) && w.handlers[h].report == Delivered
    requires Awaiting(w.objs[w.handlers[h].obj].status)
    ensures Solvent(c, Next(c, w, DlrEffect(h, written)))
  {
    DeliveredKeeps(c, w, h, written);
    var w' := Delivered1(w, h);
    assert Next(c, w, DlrEffect(h, written)) == w';
    assert UndecidedMsgs(w') == UndecidedMsgs(w) && DecidingHandlers(w') == DecidingHandlers(w);
    if Alive(w) {
      MovedReady(c, w, h);
      MovedAffords(c, w, h);
    }
  }

  lemma PassedSolvent(c: Config, w: World, h: nat)
    requires Sound(c, w) && Enabled(w, DlrCheck(h)) && Awaiting(w.objs[w.handlers[h].obj].status)
    ensures Solvent(c, w.(handlers := w.handlers[h := w.handlers[h].(passed := true)]))
  {
    var w' := w.(handlers := w.handlers[h := w.handlers[h].(passed := true)]);
    assert UndecidedMsgs(w') == UndecidedMsgs(w) && DecidingHandlers(w') == DecidingHandlers(w);
    if Alive(w) {
      PassedReady(c, w, h);
    }
  }

  lemma PassedReady(c: Config, w: World, h: nat)
    requires Ready(c, w) && h in w.handlers && w.handlers[h].DlrHandler? && !w.handlers[h].passed
    requires w.handlers[h].obj < |w.objs| && Awaiting(w.objs[w.handlers[h].obj].status)
    ensures var w' := w.(handlers := w.handlers[h := w.handlers[h].(passed := true)]);
            Ready(c, w') && (Affords(c, w) ==> Affords(c, w'))
  {
    var w' := w.(handlers := w.handlers[h := w.handlers[h].(passed := true)]);
    assert Fitting(c, w.objs[w.handlers[h].obj]);
    assert UndecidedMsgs(w') == UndecidedMsgs(w);
    forall g | g in w'.handlers ensures HandReady(c, w', w'.handlers[g]) {
      assert HandReady(c, w, w.handlers[g]);
    }
  }

  lemma DlrCheckSolvent(c: Config, w: World, h: nat)
    requires Sound(c, w) && Enabled(w, DlrCheck(h))
    ensures Solvent(c, Next(c, w, DlrCheck(h)))
  {
    if Awaiting(w.objs[w.handlers[h].obj].status) {
      PassedSolvent(c, w, h);
    } else if w.handlers[h].Decides() {
      assert h in DecidingHandlers(w);
      EndSolvent(c, w, h, Next(c, w, DlrCheck(h)));
    } else {
      IdleSolvent(c, w, h);
    }
  }

  lemma IdleSolvent(c: Config, w: World, h: nat)
    requires Sound(c, w) && h in w.handlers && !w.handlers[h].Decides()
    ensures Solvent(c, w.(handlers := w.handlers - {h}))
  {
    var w' := w.(handlers := w.handlers - {h});
    assert UndecidedMsgs(w') == UndecidedMsgs(w) && DecidingHandlers(w') == DecidingHandlers(w);
    if Alive(w) {
      ClosedReady(c, w, h);
    }
  }

  lemma ClosedReady(c: Config, w: World, h: nat)
    requires Ready(c, w)
    ensures var w' := w.(handlers := w.handlers - {h}); Ready(c, w') && (Affords(c, w) ==> Affords(c, w'))
  {
    var w' := w.(handlers := w.handlers - {h});
    assert UndecidedMsgs(w') == UndecidedMsgs(w);
    forall g | g in w'.handlers ensures HandReady(c, w', w'.handlers[g]) {
      assert HandReady(c, w, w.handlers[g]);
    }
  }

  /** A decision that queues an activation it can afford. */
  lemma QueueSolvent(c: Config, w: World, h: nat, a: Act)
    requires Sound(c, w) && h in DecidingHandlers(w) && ActOk(c, a) && w.handlers[h].obj < |w.objs|
    requires Worth(c, a.step, a.retry) <= HandDecision(c, w, w.handlers[h])
    ensures Solvent(c, w.(handlers := w.handlers - {h}, acts := w.acts + [a]))
  {
    var w' := w.(handlers := w.handlers - {h}, acts := w.acts + [a]);
    OnlyDecision(w, h);
    ClosedReady(c, w, h);
    assert UndecidedMsgs(w') == UndecidedMsgs(w);
    assert DecidingHandlers(w') == {};
    assert forall g :: g in w'.handlers ==> g !in DecidingHandlers(w');
    assert w'.acts == [a];
    forall g | g in w'.handlers ensures HandReady(c, w', w'.handlers[g]) {
      assert HandReady(c, w, w.handlers[g]);
    }
  }

  /** A decision that queues nothing. */
  lemma EndSolvent(c: Config, w: World, h: nat, w': World)
    requires Sound(c, w) && h in DecidingHandlers(w)
    requires w'.msgs == w.msgs && w'.handlers == w.handlers - {h} && w'.acts == w.acts && w'.sent == w.sent
    ensures Solvent(c, w')
  {
    OnlyDecision(w, h);
    assert UndecidedMsgs(w') == UndecidedMsgs(w);
    assert DecidingHandlers(w') == DecidingHandlers(w) - {h};
    DeadSolvent(c, w, w');
  }

  lemma DecidedSolvent(c: Config, w: World, h: nat, written: bool)
    requires Sound(c, w) && Enabled(w, DlrEffect(h, written)) && w.handlers[h].Decides()
    ensures Solvent(c, Next(c, w, DlrEffect(h, written)))
  {
    assert h in DecidingHandlers(w);
    OnlyDecision(w, h);
    DecidedIs(c, w, h, written);
    var o := w.objs[w.handlers[h].obj];
    if Retries(c, w, h) {
      assert HandReady(c, w, w.handlers[h]);
      QueueSolvent(c, w, h, Act(o.step, o.retry + 1));
    } else {
      EndSolvent(c, w, h, Next(c, w, DlrEffect(h, written)));
    }
  }

  lemma DlrEffectSolvent(c: Config, w: World, h: nat, written: bool)
    requires Sound(c, w) && Enabled(w, DlrEffect(h, written)) && Tidy(w, DlrEffect(h, written))
    ensures Solvent(c, Next(c, w, DlrEffect(h, written)))
  {
    if w.handlers[h].Decides() {
      DecidedSolvent(c, w, h, written);
    } else if w.handlers[h].report == Delivered {
      DeliveredSolvent(c, w, h, written);
    } else {
      IdleSolvent(c, w, h);
      assert Next(c, w, DlrEffect(h, written)) == w.(handlers := w.handlers - {h});
    }
  }

  /** An answer goes on, or queues nothing. */
  lemma AnsweredIs(c: Config, w: World, h: nat, answer: Answer, written: bool)
    requires Enabled(w, MoEffect(h, answer, written))
    ensures var w', o := Next(c, w, MoEffect(h, answer, written)), w.objs[w.handlers[h].obj];
            var next := ScanNext(c.commands, o.step);
            && w'.msgs == w.msgs && w'.handlers == w.handlers - {h} && w'.sent == w.sent
            && (w'.acts == w.acts ||
                (next != -1 && w' == w.(handlers := w.handlers - {h}, acts := w.acts + [Act(next, 0)])))
  {
  }

  lemma OnwardAffordable(c: Config, o: CardState)
    requires Numbered(c) && Visited(c, o.step) && Fitting(c, o) && ScanNext(c.commands, o.step) != -1
    ensures var next := ScanNext(c.commands, o.step);
            ActOk(c, Act(next, 0)) && Worth(c, next, 0) <= Decision(c, o)
  {
    ScanFindsLeast(c.commands, o.step);
    NextWorth(c, o.step);
    DecisionNatural(c, o);
  }

  lemma MoEffectSolvent(c: Config, w: World, h: nat, answer: Answer, written: bool)
    requires Sound(c, w) && Enabled(w, MoEffect(h, answer, written))
    ensures Solvent(c, Next(c, w, MoEffect(h, answer, written)))
  {
    var w', o := Next(c, w, MoEffect(h, answer, written)), w.objs[w.handlers[h].obj];
    assert h in DecidingHandlers(w);
    OnlyDecision(w, h);
    AnsweredIs(c, w, h, answer, written);
    if w'.acts == w.acts {
      EndSolvent(c, w, h, w');
    } else {
      assert Fitting(c, o);
      OnwardAffordable(c, o);
      QueueSolvent(c, w, h, Act(ScanNext(c.commands, o.step), 0));
    }
  }

  lemma StepSolvent(c: Config, w: World, s: Step)
    requires Sound(c, w) && Enabled(w, s) && Tidy(w, s)
    ensures Solvent(c, Next(c, w, s))
  {
    match s
    case Activate(fate) => ActivateSolvent(c, w, fate);
    case WriteState(i, written) => WriteSolvent(c, w, i, written);
    case Throttle =>
      OnlyActivation(w);
      assert Next(c, w, s) == w;
    case Absent(id) => AbsentSolvent(c, w, id);
    case Overflow(look, written) => OverflowSolvent(c, w, look, written);
    case Peek(look) => PeekSolvent(c, w, look);
    case DlrLoad(_, _, _, _) => LoadSolvent(c, w, s);
    case DlrCheck(h) => DlrCheckSolvent(c, w, h);
    case DlrEffect(h, written) => DlrEffectSolvent(c, w, h, written);
    case MoLoad(_, _, _) => LoadSolvent(c, w, s);
    case MoEffect(h, answer, written) => MoEffectSolvent(c, w, h, answer, written);
  }

  lemma {:induction false} ExecSound(c: Config, w: World, steps: seq<Step>)
    requires Sound(c, w) && TidyRun(c, w, steps)
    ensures Exec(c, w, steps).Some? && Sound(c, Exec(c, w, steps).value)
    decreases |steps|
  {
    if steps != [] {
      NextKeeps(c, w, steps[0]);
      StepSolvent(c, w, steps[0]);
      ExecSound(c, Next(c, w, steps[0]), steps[1..]);
    }
  }

  // ----------------------------------------------------------------- main results

  lemma StartSound(c: Config)
    requires AllRespond(c) && Numbered(c)
    ensures Sound(c, Start(c))
  {
    var w0 := Start(c);
    assert UndecidedMsgs(w0) == {} && DecidingHandlers(w0) == {};
    assert ActOk(c, Act(c.first, 0));
    FirstWorth(c, c.first);
    PowerPositive(Tries(c) + 1, |Above(c, c.first)| + 1);
  }

  lemma AllAboveFirst(c: Config)
    requires Numbered(c)
    ensures |Above(c, c.first)| + 1 == |Sequences(c.commands)|
  {
    assert Sequences(c.commands) == Above(c, c.first) + {c.first};
  }

  /** In a tidy run, whatever reports are late, a card of a campaign of answering
      commands is sent fewer than (attempts + 1) to the power of the number of
      commands. */
  lemma SendsBounded(c: Config, steps: seq<Step>)
    requires AllRespond(c) && Numbered(c) && TidyRun(c, Start(c), steps)
    ensures Exec(c, Start(c), steps).Some?
    ensures |Exec(c, Start(c), steps).value.sent| < Power(Tries(c) + 1, |Sequences(c.commands)|)
  {
    StartSound(c);
    ExecSound(c, Start(c), steps);
    FirstWorth(c, c.first);
    AllAboveFirst(c);
  }

  // ------------------------------------------------------------- the bound is reached

  /** Steps that are tidy wherever they are possible. */
  predicate Free(s: Step) {
    s != Activate(Sent) && !s.DlrEffect?
  }

  lemma {:induction false} FreeTidy(c: Config, w: World, steps: seq<Step>)
    requires Exec(c, w, steps).Some? && forall i :: 0 <= i < |steps| ==> Free(steps[i])
    ensures TidyRun(c, w, steps)
    decreases |steps|
  {
    if steps != [] {
      FreeTidy(c, Next(c, w, steps[0]), steps[1..]);
    }
  }

  /** A tidy first step, then free ones. */
  lemma FirstTidy(c: Config, w: World, steps: seq<Step>)
    requires Exec(c, w, steps).Some? && steps != [] && Tidy(w, steps[0])
    requires forall i :: 1 <= i < |steps| ==> Free(steps[i])
    ensures TidyRun(c, w, steps)
  {
    FreeTidy(c, Next(c, w, steps[0]), steps[1..]);
  }

  lemma {:induction false} TidyThen(c: Config, w: World, a: seq<Step>, mid: World, b: seq<Step>)
    requires TidyRun(c, w, a) && Reaches(c, w, a, mid) && TidyRun(c, mid, b)
    ensures TidyRun(c, w, a + b)
    decreases |a|
  {
    if a == [] {
      assert a + b == b;
    } else {
      var w1 := Next(c, w, a[0]);
      assert Reaches(c, w1, a[1..], mid);
      TidyThen(c, w1, a[1..], mid, b);
      assert (a + b)[0] == a[0] && (a + b)[1..] == a[1..] + b;
    }
  }

  /** A tidy run from w to end. */
  ghost predicate Leads(c: Config, w: World, steps: seq<Step>, end: World) {
    Reaches(c, w, steps, end) && TidyRun(c, w, steps)
  }

  lemma LeadsThen(c: Config, w: World, a: seq<Step>, mid: World, b: seq<Step>, end: World)
    requires Leads(c, w, a, mid) && Leads(c, mid, b, end)
    ensures Leads(c, w, a + b, end)
  {
    ReachesThen(c, w, a, mid, b, end);
    TidyThen(c, w, a, mid, b);
  }

  /** Only the activation a is queued; handlers have small numbers. */
  ghost predicate Queued(c: Config, w: World, a: Act) {
    && w.acts == [a] && a.retry == 0 && Visited(c, a.step) && w.misses == {}
    && (forall h :: h in w.handlers ==> h < |w.msgs|)
  }

  /** The activation is sent. */
  lemma Leaf(c: Config, w: World, a: Act) returns (w1: World)
    requires Queued(c, w, a)
    ensures Leads(c, w, [Activate(Sent)], w1) && Explored(w, w1, 1)
  {
    assert Reaches(c, w, [], w);
    w1 := Sends(c, w, [], w, a);
    assert [] + [Activate(Sent)] == [Activate(Sent)];
    FirstTidy(c, w, [Activate(Sent)]);
  }

  /** A step with others above it is sent, its report loaded, its answer taken. */
  lemma Opens(c: Config, w: World, a: Act) returns (steps: seq<Step>, end: World)
    requires Queued(c, w, a) && ScanNext(c.commands, a.step) != -1
    ensures Leads(c, w, steps, end)
    ensures end.acts == [Act(ScanNext(c.commands, a.step), 0)] && end.sent == w.sent + [a] && end.misses == {}
    ensures end.handlers == w.handlers[|w.msgs| := DlrHandler(|w.objs|, Delivered, true)]
    ensures end.objs == w.objs + [NewObject(a.step)] && |end.msgs| == |w.msgs| + 1
  {
    var m, obj := |w.msgs|, |w.objs|;
    assert Reaches(c, w, [], w);
    var w1 := Sends(c, w, [], w, a);
    assert [] + [Activate(Sent)] == [Activate(Sent)];
    var w2 := Reports(c, w, [Activate(Sent)], w1, m, obj, m, Delivered);
    var more := [Activate(Sent)] + [DlrLoad(m, m, Delivered, Hit)] + [DlrCheck(m)];
    end := GoesOn(c, w, more, w2, m, obj, m + 1);
    steps := more + [MoLoad(m + 1, m, Hit)] + [MoEffect(m + 1, Accepted, true)];
    FirstTidy(c, w, steps);
  }

  /** The late report puts the object back; the last message's answer goes on from
      there once more. */
  lemma Reopens(c: Config, w: World, h: nat, obj: nat, step: int) returns (steps: seq<Step>, end: World)
    requires AllRespond(c) && Visited(c, step) && ScanNext(c.commands, step) != -1 && w.acts == []
    requires obj < |w.objs| && w.objs[obj] == NewObject(step)
    requires h in w.handlers && w.handlers[h] == DlrHandler(obj, Delivered, true)
    requires w.msgs != [] && w.msgs[|w.msgs| - 1].Undecided()
    ensures Leads(c, w, steps, end)
    ensures end.acts == [Act(ScanNext(c.commands, step), 0)] && end.sent == w.sent && end.handlers == w.handlers - {h}
    ensures end.objs == w.objs[obj := NewObject(step).(status := AwaitingMo, transition := 2)]
    ensures |end.msgs| == |w.msgs| && end.misses == w.misses
  {
    CommandAtFacts(c.commands, step);
    assert !Silent(c, step);
    var s := DlrEffect(h, true);
    assert Reaches(c, w, [], w);
    ReachesNext(c, w, [], w, s);
    assert [] + [s] == [s];
    var w1 := Next(c, w, s);
    end := GoesOn(c, w, [s], w1, |w.msgs| - 1, obj, h);
    steps := [s] + [MoLoad(h, |w.msgs| - 1, Hit)] + [MoEffect(h, Accepted, true)];
    FirstTidy(c, w, steps);
  }

  /** From w on, n messages were sent, the last one being undecided; the objects and
      handlers of before are as they were. */
  ghost predicate Explored(w: World, end: World, n: nat) {
    && end.acts == [] && |end.sent| == |w.sent| + n && end.handlers == w.handlers && end.misses == {}
    && w.objs <= end.objs && |w.msgs| <= |end.msgs| && end.msgs != [] && end.msgs[|end.msgs| - 1].Undecided()
  }

  lemma DoublesUp(c: Config, step: int)
    requires step >= -1 && ScanNext(c.commands, step) != -1
    ensures |Above(c, step)| == |Above(c, ScanNext(c.commands, step))| + 1
    ensures Power(2, |Above(c, step)|) == 2 * Power(2, |Above(c, ScanNext(c.commands, step))|)
  {
    var next := ScanNext(c.commands, step);
    ScanFindsLeast(c.commands, step);
    assert Above(c, step) == Above(c, next) + {next};
    assert |Above(c, step)| == |Above(c, next)| + 1;
  }

  lemma LastAbove(c: Config, step: int)
    requires step >= -1 && ScanNext(c.commands, step) == -1
    ensures |Above(c, step)| == 0
  {
    ScanFindsLeast(c.commands, step);
    assert Above(c, step) == {};
  }

  /** Exploring the steps above twice, from the newest object and once more from
      the one put back. */
  lemma {:induction false} Explores(c: Config, w: World, a: Act) returns (steps: seq<Step>, end: World, n: nat)
    requires AllRespond(c) && Numbered(c) && Queued(c, w, a)
    ensures Leads(c, w, steps, end) && Explored(w, end, n) && n + 1 == 2 * Power(2, |Above(c, a.step)|)
    decreases |Above(c, a.step)|
  {
    var next := ScanNext(c.commands, a.step);
    if next == -1 {
      LastAbove(c, a.step);
      end := Leaf(c, w, a);
      steps, n := [Activate(Sent)], 1;
    } else {
      DoublesUp(c, a.step);
      ScanFindsLeast(c.commands, a.step);
      var s1, w1 := Opens(c, w, a);
      var s2, w2, n1 := Explores(c, w1, Act(next, 0));
      LeadsThen(c, w, s1, w1, s2, w2);
      var s3, w3 := PutBack(c, w, w1, w2, a, n1);
      LeadsThen(c, w, s1 + s2, w2, s3, w3);
      var s4, n2;
      s4, end, n2 := Explores(c, w3, Act(next, 0));
      LeadsThen(c, w, s1 + s2 + s3, w3, s4, end);
      steps, n := s1 + s2 + s3 + s4, 1 + n1 + n2;
      assert w.objs <= w3.objs <= end.objs;
    }
  }

  lemma PutBack(c: Config, w: World, w1: World, w2: World, a: Act, n: nat) returns (steps: seq<Step>, w3: World)
    requires AllRespond(c) && Queued(c, w, a) && ScanNext(c.commands, a.step) != -1 && Explored(w1, w2, n)
    requires w1.handlers == w.handlers[|w.msgs| := DlrHandler(|w.objs|, Delivered, true)]
    requires w1.objs == w.objs + [NewObject(a.step)] && |w1.msgs| == |w.msgs| + 1 && w1.sent == w.sent + [a]
    ensures Leads(c, w2, steps, w3) && w3.misses == {}
    ensures w3.acts == [Act(ScanNext(c.commands, a.step), 0)] && |w3.sent| == |w.sent| + 1 + n && w3.handlers == w.handlers
    ensures w.objs <= w3.objs && |w.msgs| <= |w3.msgs|
  {
    var h, obj := |w.msgs|, |w.objs|;
    assert w2.objs[obj] == w1.objs[obj];
    steps, w3 := Reopens(c, w2, h, obj, a.step);
    assert w1.handlers - {h} == w.handlers;
  }

  /** Every campaign of answering commands has a tidy run with 2 to the power of the
      number of commands messages, less one. */
  lemma SendsReach(c: Config)
    requires AllRespond(c) && Numbered(c)
    ensures exists steps, end :: Leads(c, Start(c), steps, end) && |end.sent| == Power(2, |Sequences(c.commands)|) - 1
  {
    var steps, end, n := Explores(c, Start(c), Act(c.first, 0));
    AllAboveFirst(c);
  }

  /** So where commands are not retried that is the most a tidy run can have. */
  lemma MostSendsExactly(c: Config, n: nat)
    requires AllRespond(c) && Numbered(c) && Tries(c) == 1
    ensures (forall steps, end :: Leads(c, Start(c), steps, end) ==> |end.sent| <= n) <==>
            n + 1 >= Power(2, |Sequences(c.commands)|)
  {
    SendsReach(c);
    if n + 1 >= Power(2, |Sequences(c.commands)|) {
      forall steps, end | Leads(c, Start(c), steps, end) ensures |end.sent| <= n {
        SendsBounded(c, steps);
      }
    }
  }

  /** Over all runs a card's messages are bounded exactly where it can be sent one
      only: a campaign with one step and one attempt. */
  lemma SendsBoundedExactly(c: Config)
    requires AllRespond(c) && Numbered(c)
    ensures (exists n: nat :: Bounds(c, n)) <==> !CanGoOn(c)
  {
    if CanGoOn(c) {
      CanGoOnFits(c);
      forall n: nat ensures !Bounds(c, n) {
        var steps, end := SendsUnbounded(c, n);
      }
    } else {
      forall steps, end | Reaches(c, Start(c), steps, end) ensures |end.sent| <= 1 {
        LoneSends(c, steps);
      }
      assert Bounds(c, 1);
    }
  }

  ghost predicate Bounds(c: Config, n: nat) {
    forall steps, end :: Reaches(c, Start(c), steps, end) ==> |end.sent| <= n
  }
}
