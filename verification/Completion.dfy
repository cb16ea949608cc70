/** The completion checker reads two counters.  Over whole campaigns: when it
    may conclude that every target card is finished, and when it will. */
module Completion {
  import opened Common
  import opened CardStates
  import opened CardStateSchedules
  import opened CardProtocol
  import opened CardTokens
  import opened CardRuns
  import opened CardOutcomes
  import opened CardNewest

  /** The checker's test on a counter row. */
  predicate Fires(r: StatsRow) {
    !(r.counts.pending > 0 || r.counts.inProgress > 0)
  }

  /** Status the checker gives a running campaign it finds done. */
  function Verdict(r: StatsRow): Status {
    if r.counts.completed == 0 && r.counts.failed > 0 then Failed else Completed
  }

  // -------------------------------------------------------- one campaign's changes

  /** Every card of the campaign, in a state its protocol can reach. */
  ghost predicate Underway(c: CampaignId, targets: set<CardId>, cfg: map<CardId, Config>, runs: map<CardId, seq<Step>>) {
    && cfg.Keys == targets == runs.Keys
    && forall k :: k in targets ==>
         && cfg[k].card == k && cfg[k].campaign == c && AllRespond(cfg[k])
         && Exec(cfg[k], Start(cfg[k]), runs[k]).Some?
  }

  ghost function WorldOf(cfg: map<CardId, Config>, runs: map<CardId, seq<Step>>, k: CardId): World
    requires k in cfg && k in runs && Exec(cfg[k], Start(cfg[k]), runs[k]).Some?
  {
    Exec(cfg[k], Start(cfg[k]), runs[k]).value
  }

  /** What has reached the database: any part of what the cards have emitted. */
  ghost predicate Emitted(c: CampaignId, targets: set<CardId>, cfg: map<CardId, Config>, runs: map<CardId, seq<Step>>,
                          flushed: seq<Change>)
    requires Underway(c, targets, cfg, runs)
  {
    forall e :: e in flushed ==>
      && e.campaign == c && e.card in targets
      && multiset(flushed)[e] <= multiset(WorldOf(cfg, runs, e.card).changes)[e]
  }

  /** Cards with a final change among es. */
  function Finished(es: seq<Change>): set<CardId> {
    set e | e in es && e.status.Terminal() :: e.card
  }

  /** The shape of a campaign's changes, as the counters see it. */
  predicate Moves(c: CampaignId, e: Change) {
    && e.campaign == c && e.statsTo == e.status
    && ((e.status == InProgress && e.statsFrom == Pending)
        || (e.status == Completed && e.statsFrom == InProgress)
        || (e.status == Failed && (e.statsFrom == InProgress || e.statsFrom == Pending)))
  }

  ghost predicate OneFinalEach(es: seq<Change>) {
    forall i, j :: 0 <= i < j < |es| && es[i].status.Terminal() && es[j].status.Terminal() ==> es[i].card != es[j].card
  }

  // -------------------------------------------------------------------- the counters

  function Activations(es: seq<Change>): nat {
    if es == [] then 0 else Activations(es[..|es| - 1]) + if es[|es| - 1].status == InProgress then 1 else 0
  }

  /** Final changes that leave the in-progress counter. */
  function Leaving(es: seq<Change>): nat {
    if es == [] then 0
    else Leaving(es[..|es| - 1]) + if es[|es| - 1].status.Terminal() && es[|es| - 1].statsFrom == InProgress then 1 else 0
  }

  lemma {:induction false} CountersAre(es: seq<Change>, c: CampaignId)
    requires forall i :: 0 <= i < |es| ==> Moves(c, es[i])
    ensures Deltas(es, c).pending == 0 - Activations(es) - (Finals(es) - Leaving(es))
    ensures Deltas(es, c).inProgress == Activations(es) - Leaving(es)
  {
    if es != [] {
      CountersAre(es[..|es| - 1], c);
      MoveDelta(c, es[|es| - 1]);
    }
  }

  /** The two live counters after the changes of es have been counted. */
  lemma LiveCounters(stats: Stats, c: CampaignId, n: nat, es: seq<Change>)
    requires c in stats && stats[c].counts == Counts(n, 0, 0, 0, 0)
    requires forall e :: e in es ==> Moves(c, e)
    ensures var r := Counted(stats, es)[c].counts;
            && r.pending == n - Activations(es) - (Finals(es) - Leaving(es))
            && r.inProgress == Activations(es) - Leaving(es)
  {
    CountersAre(es, c);
  }

  lemma MoveDelta(c: CampaignId, e: Change)
    requires Moves(c, e)
    ensures var d := DeltaOf(e, c);
            && d.pending == (if e.statsFrom == Pending then -1 else 0)
            && d.inProgress == (if e.statsFrom == InProgress then -1 else 0) + (if e.status == InProgress then 1 else 0)
  {
  }

  lemma NewlyFinished(es: seq<Change>)
    requires OneFinalEach(es) && es != [] && es[|es| - 1].status.Terminal()
    ensures es[|es| - 1].card !in Finished(es[..|es| - 1])
  {
    var past, last := es[..|es| - 1], |es| - 1;
    forall x | x in past && x.status.Terminal() ensures x.card != es[last].card {
      var i :| 0 <= i < last && es[i] == x;
    }
  }

  lemma {:induction false} FinalsCount(es: seq<Change>)
    requires OneFinalEach(es)
    ensures |Finished(es)| == Finals(es)
  {
    if es != [] {
      var past, e := es[..|es| - 1], es[|es| - 1];
      FinalsCount(past);
      assert forall x :: x in es <==> x in past || x == e;
      if e.status.Terminal() {
        NewlyFinished(es);
        assert Finished(es) == Finished(past) + {e.card};
      } else {
        assert Finished(es) == Finished(past);
      }
    }
  }

  // -------------------------------------------------------- from runs to the counters

  lemma {:induction false} FinalMember(es: seq<Change>, x: Change)
    requires x in es && x.status.Terminal()
    ensures Finals(es) >= multiset(es)[x]
  {
    if es[|es| - 1] == x {
      var past := es[..|es| - 1];
      assert es == past + [x];
      if x in past {
        FinalMember(past, x);
      }
    } else {
      FinalMember(es[..|es| - 1], x);
      assert es == es[..|es| - 1] + [es[|es| - 1]];
    }
  }

  lemma {:induction false} TwoFinals(es: seq<Change>, x: Change, y: Change)
    requires x in es && y in es && x != y && x.status.Terminal() && y.status.Terminal()
    ensures Finals(es) >= 2
  {
    var past, e := es[..|es| - 1], es[|es| - 1];
    assert forall z :: z in es <==> z in past || z == e;
    if e == x {
      FinalMember(past, y);
    } else if e == y {
      FinalMember(past, x);
    } else {
      TwoFinals(past, x, y);
    }
  }

  /** Each card's protocol gives it one final change at most, so the flushed
      part of a campaign's changes has that property too. */
  lemma FlushedWellFormed(c: CampaignId, targets: set<CardId>, cfg: map<CardId, Config>, runs: map<CardId, seq<Step>>,
                          flushed: seq<Change>)
    requires Underway(c, targets, cfg, runs) && Emitted(c, targets, cfg, runs, flushed)
    ensures OneFinalEach(flushed)
    ensures forall e :: e in flushed ==> Moves(c, e)
  {
    forall e | e in flushed ensures Moves(c, e) {
      assert e in multiset(flushed);
      assert e in WorldOf(cfg, runs, e.card).changes;
      SingleToken(cfg[e.card], runs[e.card]);
      assert Shaped(cfg[e.card], e);
    }
    forall i, j | 0 <= i < j < |flushed| && flushed[i].status.Terminal() && flushed[j].status.Terminal()
      ensures flushed[i].card != flushed[j].card
    {
      FinalsDiffer(c, targets, cfg, runs, flushed, i, j);
    }
  }

  lemma FinalsDiffer(c: CampaignId, targets: set<CardId>, cfg: map<CardId, Config>, runs: map<CardId, seq<Step>>,
                     flushed: seq<Change>, i: nat, j: nat)
    requires Underway(c, targets, cfg, runs) && Emitted(c, targets, cfg, runs, flushed)
    requires i < j < |flushed| && flushed[i].status.Terminal() && flushed[j].status.Terminal()
    ensures flushed[i].card != flushed[j].card
  {
    var x, y := flushed[i], flushed[j];
    assert x in flushed && y in flushed;
    assert x in multiset(flushed) && y in multiset(flushed);
    if x.card == y.card {
      var es := WorldOf(cfg, runs, x.card).changes;
      SingleToken(cfg[x.card], runs[x.card]);
      assert x in es && y in es;
      if x == y {
        TwicePresent(flushed, i, j);
        FinalMember(es, x);
      } else {
        TwoFinals(es, x, y);
      }
    }
  }

  // ------------------------------------------------------------------ main results

  lemma FiresOnlyIfFinished(stats: Stats, c: CampaignId, targets: set<CardId>, es: seq<Change>)
    requires c in stats && stats[c].counts == Counts(|targets|, 0, 0, 0, 0)
    requires (forall e :: e in es ==> Moves(c, e) && e.card in targets) && OneFinalEach(es)
    ensures Fires(Counted(stats, es)[c]) ==> Finished(es) == targets
  {
    LiveCounters(stats, c, |targets|, es);
    FinalsCount(es);
    SubsetSize(Finished(es), targets);
  }

  /** Safety: from a first start, whatever the cards have done and whatever part
      of it the writers have flushed in whatever batches, the checker's test
      passes only if a final change of every target card has been flushed. */
  lemma CompletionSafe(c: CampaignId, targets: set<CardId>, cfg: map<CardId, Config>, runs: map<CardId, seq<Step>>,
                       db: Db, batches: seq<seq<Change>>)
    requires Underway(c, targets, cfg, runs) && Emitted(c, targets, cfg, runs, Flatten(batches))
    requires c in db.stats && db.stats[c].counts == Counts(|targets|, 0, 0, 0, 0)
    ensures c in WriteBatches(db, batches).stats
    ensures Fires(WriteBatches(db, batches).stats[c]) ==> Finished(Flatten(batches)) == targets
  {
    StatsOfBatches(db, batches);
    FlushedWellFormed(c, targets, cfg, runs, Flatten(batches));
    FiresOnlyIfFinished(db.stats, c, targets, Flatten(batches));
  }

  /** How many changes of es end their card that way. */
  function Ended(es: seq<Change>, s: Status): nat {
    if es == [] then 0 else Ended(es[..|es| - 1], s) + if es[|es| - 1].status == s then 1 else 0
  }

  lemma EndDelta(c: CampaignId, e: Change)
    requires Moves(c, e)
    ensures DeltaOf(e, c).completed == (if e.status == Completed then 1 else 0)
    ensures DeltaOf(e, c).failed == (if e.status == Failed then 1 else 0)
  {
  }

  lemma {:induction false} EndCounters(es: seq<Change>, c: CampaignId)
    requires forall i :: 0 <= i < |es| ==> Moves(c, es[i])
    ensures Deltas(es, c).completed == Ended(es, Completed) && Deltas(es, c).failed == Ended(es, Failed)
  {
    if es != [] {
      EndCounters(es[..|es| - 1], c);
      EndDelta(c, es[|es| - 1]);
    }
  }

  lemma {:induction false} EndedExactly(es: seq<Change>, s: Status)
    ensures Ended(es, s) > 0 <==> exists e :: e in es && e.status == s
  {
    if es != [] {
      EndedExactly(es[..|es| - 1], s);
      assert es == es[..|es| - 1] + [es[|es| - 1]];
    }
  }

  /** A change among es that a failing step of its card's run emitted. */
  ghost predicate SomeFailed(cfg: map<CardId, Config>, runs: map<CardId, seq<Step>>, es: seq<Change>)
    requires forall e :: e in es ==> e.card in cfg && e.card in runs && Runs(cfg[e.card], runs[e.card])
  {
    exists e, i :: e in es && FailsAt(cfg[e.card], runs[e.card], i) && EmittedAt(cfg[e.card], runs[e.card], i, e)
  }

  ghost predicate SomeCompleted(cfg: map<CardId, Config>, runs: map<CardId, seq<Step>>, es: seq<Change>)
    requires forall e :: e in es ==> e.card in cfg && e.card in runs && Runs(cfg[e.card], runs[e.card])
  {
    exists e, i :: e in es && CompletesAt(cfg[e.card], runs[e.card], i) && EmittedAt(cfg[e.card], runs[e.card], i, e)
  }

  lemma StatusesTell(c: CampaignId, targets: set<CardId>, cfg: map<CardId, Config>, runs: map<CardId, seq<Step>>,
                     es: seq<Change>)
    requires Underway(c, targets, cfg, runs) && Emitted(c, targets, cfg, runs, es)
    ensures SomeFailed(cfg, runs, es) <==> exists e :: e in es && e.status == Failed
    ensures SomeCompleted(cfg, runs, es) <==> exists e :: e in es && e.status == Completed
  {
    forall e | e in es
      ensures e.status == Completed <==>
              exists i :: CompletesAt(cfg[e.card], runs[e.card], i) && EmittedAt(cfg[e.card], runs[e.card], i, e)
      ensures e.status == Failed <==>
              exists i :: FailsAt(cfg[e.card], runs[e.card], i) && EmittedAt(cfg[e.card], runs[e.card], i, e)
    {
      assert e in multiset(es);
      assert e in WorldOf(cfg, runs, e.card).changes;
      StatusExactly(cfg[e.card], runs[e.card], e);
    }
  }

  lemma VerdictOfStatuses(c: CampaignId, targets: set<CardId>, cfg: map<CardId, Config>, runs: map<CardId, seq<Step>>,
                          db: Db, batches: seq<seq<Change>>)
    requires Underway(c, targets, cfg, runs) && Emitted(c, targets, cfg, runs, Flatten(batches))
    requires c in db.stats && db.stats[c].counts == Counts(|targets|, 0, 0, 0, 0)
    ensures c in WriteBatches(db, batches).stats
    ensures Verdict(WriteBatches(db, batches).stats[c]) == Failed <==>
            && (exists e :: e in Flatten(batches) && e.status == Failed)
            && !(exists e :: e in Flatten(batches) && e.status == Completed)
  {
    var es := Flatten(batches);
    FlushedWellFormed(c, targets, cfg, runs, es);
    StatsOfBatches(db, batches);
    EndCounters(es, c);
    EndedExactly(es, Completed);
    EndedExactly(es, Failed);
  }

  /** Whatever was flushed, the campaign is called failed exactly when a step that
      failed its card (a refusal, used-up attempts, a partial submission, an
      overflow) has its change in the database, and no step has that completed its
      card. */
  lemma VerdictExactly(c: CampaignId, targets: set<CardId>, cfg: map<CardId, Config>, runs: map<CardId, seq<Step>>,
                       db: Db, batches: seq<seq<Change>>)
    requires Underway(c, targets, cfg, runs) && Emitted(c, targets, cfg, runs, Flatten(batches))
    requires c in db.stats && db.stats[c].counts == Counts(|targets|, 0, 0, 0, 0)
    ensures c in WriteBatches(db, batches).stats
    ensures Verdict(WriteBatches(db, batches).stats[c]) == Failed <==>
            SomeFailed(cfg, runs, Flatten(batches)) && !SomeCompleted(cfg, runs, Flatten(batches))
  {
    VerdictOfStatuses(c, targets, cfg, runs, db, batches);
    StatusesTell(c, targets, cfg, runs, Flatten(batches));
  }

  /** With prompt writes the newest row of every target is final by then; what
      happens otherwise is CardNewest.NewestFinalExactly. */
  lemma CompletionNewest(c: CampaignId, targets: set<CardId>, cfg: map<CardId, Config>, runs: map<CardId, seq<Step>>,
                         db: Db, batches: seq<seq<Change>>, k: CardId)
    requires Underway(c, targets, cfg, runs) && Emitted(c, targets, cfg, runs, Flatten(batches))
    requires c in db.stats && db.stats[c].counts == Counts(|targets|, 0, 0, 0, 0)
    requires k in targets && PromptRun(cfg[k], Start(cfg[k]), runs[k])
    requires forall q :: q in db.states && q.Owner() == CardKey(k, c) ==> q.transition < 1
    ensures c in WriteBatches(db, batches).stats
    ensures Fires(WriteBatches(db, batches).stats[c]) ==> IsFinal(FinalHead(db, batches, CardKey(k, c)))
  {
    CompletionSafe(c, targets, cfg, runs, db, batches);
    var es := Flatten(batches);
    if Finished(es) == targets {
      FlushedWellFormed(c, targets, cfg, runs, es);
      var f :| f in es && f.status.Terminal() && f.card == k;
      FinalEnds(c, targets, cfg, runs, db, es, k, f);
      OnTopStays(db, es, batches, CardKey(k, c), f);
    }
  }

  lemma FinalEnds(c: CampaignId, targets: set<CardId>, cfg: map<CardId, Config>, runs: map<CardId, seq<Step>>,
                  db: Db, es: seq<Change>, k: CardId, f: Change)
    requires Underway(c, targets, cfg, runs) && Emitted(c, targets, cfg, runs, es) && OneFinalEach(es)
    requires k in targets && PromptRun(cfg[k], Start(cfg[k]), runs[k])
    requires forall q :: q in db.states && q.Owner() == CardKey(k, c) ==> q.transition < 1
    requires f in es && f.status.Terminal() && f.card == k
    ensures Ends(db.states, es, CardKey(k, c), f) && OnTop(es, CardKey(k, c), f)
  {
    forall e | e in es && e.Owner() == CardKey(k, c)
      ensures e.transition >= 1 && (e.status.Terminal() ==> e == f) && (!e.status.Terminal() ==> e.transition < f.transition)
    {
      assert e in multiset(es) && f in multiset(es);
      PromptOnTop(cfg[k], runs[k], e, f);
      var i :| 0 <= i < |es| && es[i] == e;
      var j :| 0 <= j < |es| && es[j] == f;
      assert e.status.Terminal() ==> i == j;
    }
  }

  // ------------------------------------------------------------ one card's share

  /** What a card's changes amount to: an activation for each message sent, one
      ending, and no ending before a message was sent except an overflow. */
  ghost predicate Accounted(w: World) {
    && Activations(w.changes) + |w.writes| == |w.sent|
    && Finals(w.changes) == (if w.end.Some? then 1 else 0)
    && Leaving(w.changes) == (if w.end.Some? && w.end != Some(PartSubmitted) then 1 else 0)
    && |w.msgs| == |w.sent| && (w.handlers != map[] ==> w.msgs != [])
    && (w.end.Some? && w.sent == [] ==> w.end == Some(Overflowed))
  }

  lemma CountMore(es: seq<Change>, e: Change)
    ensures Activations(es + [e]) == Activations(es) + (if e.status == InProgress then 1 else 0)
    ensures Leaving(es + [e]) == Leaving(es) + (if e.status.Terminal() && e.statsFrom == InProgress then 1 else 0)
    ensures Finals(es + [e]) == Finals(es) + (if e.status.Terminal() then 1 else 0)
  {
    assert (es + [e])[..|es|] == es;
  }

  lemma FinishAccounted(c: Config, w: World, obj: nat, status: Status, retry: int, from: Status, how: End)
    requires Accounted(w) && obj < |w.objs| && w.end.None? && status.Terminal()
    requires from == if how == PartSubmitted then Pending else InProgress
    requires w.sent == [] ==> how == Overflowed
    ensures Accounted(Finish(c, w, obj, status, retry, from, how, true))
  {
    var w' := Finish(c, w, obj, status, retry, from, how, true);
    CountMore(w.changes, w'.changes[|w.changes|]);
  }

  lemma WriteAccounted(c: Config, w: World, i: nat)
    requires Accounted(w) && Enabled(w, WriteState(i, true))
    ensures Accounted(WriteStep(c, w, i, true))
  {
    var w', x := WriteStep(c, w, i, true), w.writes[i];
    var e := NewChange(c, InProgress, x.step, x.retry, Some(x.msg), x.at, w.objs[x.obj].transition, Pending);
    assert w' == w.(writes := w'.writes, changes := w.changes + [e]) && |w'.writes| == |w.writes| - 1;
    CountMore(w.changes, e);
  }

  lemma OverflowAccounted(c: Config, w: World, look: Lookup)
    requires Accounted(w) && Tokens(w) <= 1 && w.acts != [] && Found(w, look)
    ensures Accounted(OverflowStep(c, w, look, true))
  {
    var (w1, o) := Fetch(w.(acts := w.acts[1..]), look);
    if o < |w1.objs| && !w1.objs[o].status.Terminal() {
      FinishAccounted(c, w1, o, Failed, 0, InProgress, Overflowed);
    }
  }

  /** A handler that decides leaves the card without an end so far. */
  lemma StillOpen(w: World, h: nat)
    requires Accounted(w) && Tokens(w) <= 1 && h in w.handlers && w.handlers[h].Decides()
    ensures w.end.None? && w.sent != []
  {
    assert h in DecidingHandlers(w);
    SubsetSize({h}, DecidingHandlers(w));
  }

  lemma ClosedAccounted(w: World, h: nat)
    requires Accounted(w)
    ensures Accounted(w.(handlers := w.handlers - {h}))
  {
  }

  lemma RetryAccounted(c: Config, w: World, obj: nat)
    requires Accounted(w) && w.end.None? && w.sent != [] && obj < |w.objs|
    ensures Accounted(RetryOrFail(c, w, obj, true))
  {
    var o := w.objs[obj];
    if o.retry + 1 >= c.maxRetries {
      FinishAccounted(c, w, obj, Failed, o.retry + 1, InProgress, Exhausted);
    }
  }

  lemma DecidedAccounted(c: Config, w: World, h: nat)
    requires Accounted(w) && Tokens(w) <= 1 && Enabled(w, DlrEffect(h, true)) && w.handlers[h].Decides()
    ensures Accounted(DlrEffectStep(c, w, h, true))
  {
    var w', w0, obj := DlrEffectStep(c, w, h, true), w.(handlers := w.handlers - {h}), w.handlers[h].obj;
    StillOpen(w, h);
    ClosedAccounted(w, h);
    if w.handlers[h].report == Partial {
      FinishAccounted(c, w0, obj, Failed, 0, Pending, PartSubmitted);
    } else {
      RetryAccounted(c, w0, obj);
      assert w' == RetryOrFail(c, w0, obj, true);
    }
  }

  lemma DlrEffectAccounted(c: Config, w: World, h: nat)
    requires AllRespond(c) && Inv(c, w) && Accounted(w) && Tokens(w) <= 1 && Enabled(w, DlrEffect(h, true))
    ensures Accounted(DlrEffectStep(c, w, h, true))
  {
    if w.handlers[h].Decides() {
      DecidedAccounted(c, w, h);
    } else if w.handlers[h].report == Delivered {
      DeliveredKeeps(c, w, h, true);
    } else {
      ClosedAccounted(w, h);
    }
  }

  lemma MoEffectAccounted(c: Config, w: World, h: nat, answer: Answer)
    requires Accounted(w) && Tokens(w) <= 1 && Enabled(w, MoEffect(h, answer, true))
    ensures Accounted(MoEffectStep(c, w, h, answer, true))
  {
    var w0, obj := w.(handlers := w.handlers - {h}), w.handlers[h].obj;
    StillOpen(w, h);
    if CommandAt(c.commands, w.objs[obj].step).Some? {
      if answer.Accepted? && ScanNext(c.commands, w.objs[obj].step) == -1 {
        FinishAccounted(c, w0, obj, Completed, 0, InProgress, Accomplished);
      } else if answer.Refused? {
        FinishAccounted(c, w0, obj, Failed, 0, InProgress, Declined);
      }
    }
  }

  lemma ActivateAccounted(c: Config, w: World, fate: Fate)
    requires Accounted(w) && w.acts != [] && w.end.None?
    ensures Accounted(ActivateStep(c, w, fate))
  {
  }

  /** An activation waits only while the card has not ended. */
  lemma QueuedOpen(w: World)
    requires Accounted(w) && Tokens(w) <= 1 && w.acts != []
    ensures w.end.None?
  {
  }

  lemma LoadAccounted(c: Config, w: World, s: Step)
    requires Accounted(w) && Enabled(w, s) && (s.DlrLoad? || s.MoLoad?)
    ensures Accounted(Next(c, w, s))
  {
    LoadIs(c, w, s);
  }

  lemma NextAccounted(c: Config, w: World, s: Step)
    requires AllRespond(c) && Inv(c, w) && Tokens(w) <= 1 && Accounted(w) && Enabled(w, s) && Written(s)
    ensures Accounted(Next(c, w, s))
  {
    match s
    case Activate(fate) =>
      QueuedOpen(w);
      ActivateAccounted(c, w, fate);
    case WriteState(i, _) => WriteAccounted(c, w, i);
    case Throttle =>
    case Absent(_) =>
    case Overflow(look, _) => OverflowAccounted(c, w, look);
    case Peek(_) =>
    case DlrLoad(_, _, _, _) => LoadAccounted(c, w, s);
    case DlrCheck(h) => ClosedAccounted(w, h);
    case DlrEffect(h, _) => DlrEffectAccounted(c, w, h);
    case MoLoad(_, _, _) => LoadAccounted(c, w, s);
    case MoEffect(h, answer, _) => MoEffectAccounted(c, w, h, answer);
  }

  lemma {:induction false} ExecAccounted(c: Config, w: World, steps: seq<Step>)
    requires AllRespond(c) && Inv(c, w) && Tokens(w) <= 1 && Accounted(w)
    requires Exec(c, w, steps).Some? && AllWritten(steps)
    ensures Accounted(Exec(c, w, steps).value)
    decreases |steps|
  {
    if steps != [] {
      NextAccounted(c, w, steps[0]);
      NextKeeps(c, w, steps[0]);
      ExecAccounted(c, Next(c, w, steps[0]), steps[1..]);
    }
  }

  // ------------------------------------------------------------- over all cards

  ghost function Sum(m: map<CardId, int>): int
    decreases |m.Keys|
  {
    if m == map[] then 0
    else
      var k :| k in m.Keys;
      assert (m - {k}).Keys == m.Keys - {k};
      m[k] + Sum(m - {k})
  }

  /** Any card may be taken out first. */
  lemma {:induction false} SumAt(m: map<CardId, int>, k: CardId)
    requires k in m
    ensures Sum(m) == m[k] + Sum(m - {k})
    decreases |m.Keys|
  {
    var first :| first in m.Keys && Sum(m) == m[first] + Sum(m - {first});
    if first != k {
      assert (m - {first}).Keys == m.Keys - {first};
      assert (m - {k}).Keys == m.Keys - {k};
      SumAt(m - {first}, k);
      SumAt(m - {k}, first);
      assert m - {first} - {k} == m - {k} - {first};
    }
  }

  lemma SumSet(m: map<CardId, int>, k: CardId, v: int)
    requires k in m
    ensures Sum(m[k := v]) == Sum(m) - m[k] + v
  {
    SumAt(m, k);
    SumAt(m[k := v], k);
    assert m[k := v] - {k} == m - {k};
  }

  lemma {:induction false} SumZeros(m: map<CardId, int>)
    requires forall k :: k in m ==> m[k] == 0
    ensures Sum(m) == 0
    decreases |m.Keys|
  {
    if m != map[] {
      var k :| k in m.Keys;
      SumAt(m, k);
      assert (m - {k}).Keys == m.Keys - {k};
      SumZeros(m - {k});
    }
  }

  lemma {:induction false} SumOfNaturals(m: map<CardId, int>)
    requires forall k :: k in m ==> m[k] >= 0
    ensures Sum(m) >= 0 && (Sum(m) == 0 <==> forall k :: k in m ==> m[k] == 0)
    decreases |m.Keys|
  {
    if m != map[] {
      var k :| k in m.Keys;
      SumAt(m, k);
      assert (m - {k}).Keys == m.Keys - {k};
      SumOfNaturals(m - {k});
      assert forall j :: j in m ==> j == k || j in m - {k};
    }
  }

  function OfCard(es: seq<Change>, k: CardId): seq<Change> {
    if es == [] then []
    else
      var e := es[|es| - 1];
      OfCard(es[..|es| - 1], k) + if e.card == k then [e] else []
  }

  /** What a change adds to the in-progress counter. */
  function Gain(e: Change, c: CampaignId): int {
    if e.campaign != c then 0
    else (if StatusColumn(e.statsTo) == InProgressCol then 1 else 0) - (if StatusColumn(e.statsFrom) == InProgressCol then 1 else 0)
  }

  function Gains(es: seq<Change>, c: CampaignId): int {
    if es == [] then 0 else Gains(es[..|es| - 1], c) + Gain(es[|es| - 1], c)
  }

  lemma GainIs(e: Change, c: CampaignId)
    ensures DeltaOf(e, c).inProgress == Gain(e, c)
  {
  }

  lemma {:induction false} GainsAre(es: seq<Change>, c: CampaignId)
    ensures Deltas(es, c).inProgress == Gains(es, c)
  {
    if es != [] {
      GainsAre(es[..|es| - 1], c);
      GainIs(es[|es| - 1], c);
    }
  }

  function Shares(es: seq<Change>, c: CampaignId, targets: set<CardId>): map<CardId, int> {
    map k | k in targets :: Gains(OfCard(es, k), c)
  }

  lemma ShareMore(es: seq<Change>, e: Change, c: CampaignId, k: CardId)
    ensures Gains(OfCard(es + [e], k), c) == Gains(OfCard(es, k), c) + if e.card == k then Gain(e, c) else 0
  {
    assert (es + [e])[..|es|] == es;
    var own := OfCard(es, k);
    if e.card == k {
      assert (own + [e])[..|own|] == own;
    } else {
      assert own + [] == own;
    }
  }

  lemma SumBump(m: map<CardId, int>, m': map<CardId, int>, k: CardId, g: int)
    requires m'.Keys == m.Keys && k in m && m'[k] == m[k] + g
    requires forall j :: j in m && j != k ==> m'[j] == m[j]
    ensures Sum(m') == Sum(m) + g
  {
    assert m' == m[k := m[k] + g];
    SumSet(m, k, m[k] + g);
  }

  lemma SharesMore(es: seq<Change>, e: Change, c: CampaignId, targets: set<CardId>, g: int)
    requires e.card in targets && g == Gain(e, c)
    ensures Sum(Shares(es + [e], c, targets)) == Sum(Shares(es, c, targets)) + g
  {
    var m, m' := Shares(es, c, targets), Shares(es + [e], c, targets);
    forall j | j in m ensures m'[j] == m[j] + if e.card == j then g else 0 {
      ShareMore(es, e, c, j);
    }
    SumBump(m, m', e.card, g);
  }

  /** The in-progress counter is the sum of the cards' shares in it. */
  lemma {:induction false} SharesAddUp(es: seq<Change>, c: CampaignId, targets: set<CardId>)
    requires forall e :: e in es ==> e.card in targets
    ensures Gains(es, c) == Sum(Shares(es, c, targets))
  {
    if es == [] {
      SumZeros(Shares(es, c, targets));
    } else {
      var init, e := es[..|es| - 1], es[|es| - 1];
      assert es == init + [e];
      SharesAddUp(init, c, targets);
      SharesMore(init, e, c, targets, Gain(e, c));
    }
  }

  // ------------------------------------------------------------ when it fires

  /** Everything the cards did has been written and flushed. */
  ghost predicate Drained(c: CampaignId, targets: set<CardId>, cfg: map<CardId, Config>, runs: map<CardId, seq<Step>>,
                          flushed: seq<Change>)
    requires Underway(c, targets, cfg, runs)
  {
    && Emitted(c, targets, cfg, runs, flushed)
    && forall k :: k in targets ==>
         && AllWritten(runs[k]) && WorldOf(cfg, runs, k).writes == []
         && multiset(OfCard(flushed, k)) == multiset(WorldOf(cfg, runs, k).changes)
  }

  lemma DrainedHas(c: CampaignId, targets: set<CardId>, cfg: map<CardId, Config>, runs: map<CardId, seq<Step>>,
                   flushed: seq<Change>, status: Status)
    requires Underway(c, targets, cfg, runs) && Drained(c, targets, cfg, runs, flushed)
    ensures (exists e :: e in flushed && e.status == status) <==>
            exists k, e :: k in targets && e in WorldOf(cfg, runs, k).changes && e.status == status
  {
    forall e | e in flushed ensures e.card in targets && e in WorldOf(cfg, runs, e.card).changes {
      assert e in multiset(flushed);
    }
    forall k, e | k in targets && e in WorldOf(cfg, runs, k).changes ensures e in flushed {
      SameMembers(OfCard(flushed, k), WorldOf(cfg, runs, k).changes);
      OfCardMembers(flushed, k);
    }
  }

  ghost predicate HasStatus(w: World, status: Status) {
    exists e :: e in w.changes && e.status == status
  }

  lemma DrainedShows(c: CampaignId, targets: set<CardId>, cfg: map<CardId, Config>, runs: map<CardId, seq<Step>>,
                     flushed: seq<Change>, status: Status)
    requires Underway(c, targets, cfg, runs) && Drained(c, targets, cfg, runs, flushed)
    ensures (exists e :: e in flushed && e.status == status) <==>
            exists k :: k in targets && HasStatus(WorldOf(cfg, runs, k), status)
  {
    DrainedHas(c, targets, cfg, runs, flushed, status);
    if k :| k in targets && HasStatus(WorldOf(cfg, runs, k), status) {
      var e :| e in WorldOf(cfg, runs, k).changes && e.status == status;
    }
    if k, e :| k in targets && e in WorldOf(cfg, runs, k).changes && e.status == status {
      assert HasStatus(WorldOf(cfg, runs, k), status);
    }
  }

  ghost predicate RunFails(c: Config, steps: seq<Step>)
    requires Runs(c, steps)
  {
    exists i :: FailsAt(c, steps, i)
  }

  ghost predicate RunCompletes(c: Config, steps: seq<Step>)
    requires Runs(c, steps)
  {
    exists i :: CompletesAt(c, steps, i)
  }

  lemma RunHasStatus(c: Config, steps: seq<Step>)
    requires Runs(c, steps) && AllWritten(steps)
    ensures HasStatus(Exec(c, Start(c), steps).value, Completed) <==> RunCompletes(c, steps)
    ensures HasStatus(Exec(c, Start(c), steps).value, Failed) <==> RunFails(c, steps)
  {
    OutcomeExactly(c, steps);
  }

  /** With everything written and flushed, it is called failed exactly when some
      card's run has a failing step and no card's run a completing one. */
  lemma VerdictOfRuns(c: CampaignId, targets: set<CardId>, cfg: map<CardId, Config>, runs: map<CardId, seq<Step>>,
                      db: Db, batches: seq<seq<Change>>)
    requires Underway(c, targets, cfg, runs) && Drained(c, targets, cfg, runs, Flatten(batches))
    requires c in db.stats && db.stats[c].counts == Counts(|targets|, 0, 0, 0, 0)
    ensures c in WriteBatches(db, batches).stats
    ensures Verdict(WriteBatches(db, batches).stats[c]) == Failed <==>
            && (exists k :: k in targets && RunFails(cfg[k], runs[k]))
            && !(exists k :: k in targets && RunCompletes(cfg[k], runs[k]))
  {
    VerdictOfStatuses(c, targets, cfg, runs, db, batches);
    DrainedFails(c, targets, cfg, runs, Flatten(batches));
    DrainedCompletes(c, targets, cfg, runs, Flatten(batches));
  }

  lemma DrainedFails(c: CampaignId, targets: set<CardId>, cfg: map<CardId, Config>, runs: map<CardId, seq<Step>>,
                     flushed: seq<Change>)
    requires Underway(c, targets, cfg, runs) && Drained(c, targets, cfg, runs, flushed)
    ensures (exists e :: e in flushed && e.status == Failed) <==> exists k :: k in targets && RunFails(cfg[k], runs[k])
  {
    DrainedShows(c, targets, cfg, runs, flushed, Failed);
    forall k | k in targets ensures HasStatus(WorldOf(cfg, runs, k), Failed) <==> RunFails(cfg[k], runs[k]) {
      RunHasStatus(cfg[k], runs[k]);
    }
  }

  lemma DrainedCompletes(c: CampaignId, targets: set<CardId>, cfg: map<CardId, Config>, runs: map<CardId, seq<Step>>,
                         flushed: seq<Change>)
    requires Underway(c, targets, cfg, runs) && Drained(c, targets, cfg, runs, flushed)
    ensures (exists e :: e in flushed && e.status == Completed) <==>
            exists k :: k in targets && RunCompletes(cfg[k], runs[k])
  {
    DrainedShows(c, targets, cfg, runs, flushed, Completed);
    forall k | k in targets ensures HasStatus(WorldOf(cfg, runs, k), Completed) <==> RunCompletes(cfg[k], runs[k]) {
      RunHasStatus(cfg[k], runs[k]);
    }
  }

  /** Messages sent to the card, less the one that its end makes up for. */
  function Surplus(w: World): int {
    |w.sent| - if w.end == Some(PartSubmitted) then 0 else 1
  }

  ghost function Surpluses(targets: set<CardId>, cfg: map<CardId, Config>, runs: map<CardId, seq<Step>>): map<CardId, int>
    requires forall k :: k in targets ==> k in cfg && k in runs && Exec(cfg[k], Start(cfg[k]), runs[k]).Some?
  {
    map k | k in targets :: Surplus(WorldOf(cfg, runs, k))
  }

  ghost predicate AllEnded(targets: set<CardId>, cfg: map<CardId, Config>, runs: map<CardId, seq<Step>>)
    requires forall k :: k in targets ==> k in cfg && k in runs && Exec(cfg[k], Start(cfg[k]), runs[k]).Some?
  {
    forall k :: k in targets ==> WorldOf(cfg, runs, k).end.Some?
  }

  lemma CardAccounted(c: Config, steps: seq<Step>)
    requires AllRespond(c) && Exec(c, Start(c), steps).Some? && AllWritten(steps)
    ensures Accounted(Exec(c, Start(c), steps).value)
  {
    var w0 := Start(c);
    assert UndecidedMsgs(w0) == {} && DecidingHandlers(w0) == {};
    ExecAccounted(c, w0, steps);
  }

  /** A card's share in the in-progress counter once it has ended. */
  lemma ShareIsSurplus(c: CampaignId, targets: set<CardId>, cfg: map<CardId, Config>, runs: map<CardId, seq<Step>>,
                       flushed: seq<Change>, k: CardId)
    requires Underway(c, targets, cfg, runs) && Drained(c, targets, cfg, runs, flushed) && k in targets
    requires WorldOf(cfg, runs, k).end.Some?
    ensures Gains(OfCard(flushed, k), c) == Surplus(WorldOf(cfg, runs, k))
  {
    var w := WorldOf(cfg, runs, k);
    CardAccounted(cfg[k], runs[k]);
    SingleToken(cfg[k], runs[k]);
    forall i | 0 <= i < |w.changes| ensures Moves(c, w.changes[i]) {
      assert Shaped(cfg[k], w.changes[i]);
    }
    CountersAre(w.changes, c);
    DeltasPermute(OfCard(flushed, k), w.changes, c);
    GainsAre(OfCard(flushed, k), c);
  }

  lemma {:induction false} OfCardMembers(es: seq<Change>, k: CardId)
    ensures forall e :: e in OfCard(es, k) <==> e in es && e.card == k
  {
    if es != [] {
      OfCardMembers(es[..|es| - 1], k);
      assert es == es[..|es| - 1] + [es[|es| - 1]];
    }
  }

  lemma {:induction false} SomeFinal(es: seq<Change>)
    ensures Finals(es) > 0 <==> exists e :: e in es && e.status.Terminal()
  {
    if es != [] {
      SomeFinal(es[..|es| - 1]);
      assert es == es[..|es| - 1] + [es[|es| - 1]];
    }
  }

  /** A card has ended exactly when its final change is in the database. */
  lemma EndedIsFinished(c: CampaignId, targets: set<CardId>, cfg: map<CardId, Config>, runs: map<CardId, seq<Step>>,
                        flushed: seq<Change>, k: CardId)
    requires Underway(c, targets, cfg, runs) && Drained(c, targets, cfg, runs, flushed) && k in targets
    ensures k in Finished(flushed) <==> WorldOf(cfg, runs, k).end.Some?
  {
    var w := WorldOf(cfg, runs, k);
    CardAccounted(cfg[k], runs[k]);
    SomeFinal(w.changes);
    OfCardMembers(flushed, k);
    SameMembers(OfCard(flushed, k), w.changes);
    if k in Finished(flushed) {
      var e :| e in flushed && e.status.Terminal() && e.card == k;
      assert e in OfCard(flushed, k);
    }
    if w.end.Some? {
      var e :| e in w.changes && e.status.Terminal();
      assert e in OfCard(flushed, k);
    }
  }

  lemma LiveGains(stats: Stats, c: CampaignId, n: nat, es: seq<Change>)
    requires c in stats && stats[c].counts == Counts(n, 0, 0, 0, 0)
    requires forall e :: e in es ==> Moves(c, e)
    ensures Counted(stats, es)[c].counts.inProgress == Gains(es, c)
    ensures Counted(stats, es)[c].counts.pending == n - Finals(es) - Gains(es, c)
  {
    LiveCounters(stats, c, n, es);
    GainsAre(es, c);
    CountersAre(es, c);
  }

  lemma ChangesFire(stats: Stats, c: CampaignId, targets: set<CardId>, es: seq<Change>)
    requires c in stats && stats[c].counts == Counts(|targets|, 0, 0, 0, 0)
    requires (forall e :: e in es ==> Moves(c, e)) && OneFinalEach(es) && Finished(es) == targets
    ensures Fires(Counted(stats, es)[c]) <==> Gains(es, c) == 0
  {
    LiveGains(stats, c, |targets|, es);
    FinalsCount(es);
  }

  lemma AllFinished(c: CampaignId, targets: set<CardId>, cfg: map<CardId, Config>, runs: map<CardId, seq<Step>>,
                    flushed: seq<Change>)
    requires Underway(c, targets, cfg, runs) && Drained(c, targets, cfg, runs, flushed)
    ensures Finished(flushed) == targets <==> AllEnded(targets, cfg, runs)
  {
    forall k | k in targets ensures k in Finished(flushed) <==> WorldOf(cfg, runs, k).end.Some? {
      EndedIsFinished(c, targets, cfg, runs, flushed, k);
    }
    assert Finished(flushed) <= targets;
    if AllEnded(targets, cfg, runs) {
      assert targets <= Finished(flushed);
    }
  }

  lemma SharesAreSurpluses(c: CampaignId, targets: set<CardId>, cfg: map<CardId, Config>, runs: map<CardId, seq<Step>>,
                           flushed: seq<Change>)
    requires Underway(c, targets, cfg, runs) && Drained(c, targets, cfg, runs, flushed) && AllEnded(targets, cfg, runs)
    ensures Shares(flushed, c, targets) == Surpluses(targets, cfg, runs)
  {
    forall k | k in targets ensures Shares(flushed, c, targets)[k] == Surpluses(targets, cfg, runs)[k] {
      ShareIsSurplus(c, targets, cfg, runs, flushed, k);
    }
    SameMaps(targets, Shares(flushed, c, targets), Surpluses(targets, cfg, runs));
  }

  lemma SameMaps(ks: set<CardId>, a: map<CardId, int>, b: map<CardId, int>)
    requires a.Keys == ks && b.Keys == ks && forall k :: k in ks ==> a[k] == b[k]
    ensures a == b
  {
  }

  lemma EndedFires(c: CampaignId, targets: set<CardId>, cfg: map<CardId, Config>, runs: map<CardId, seq<Step>>,
                   stats: Stats, flushed: seq<Change>)
    requires Underway(c, targets, cfg, runs) && Drained(c, targets, cfg, runs, flushed) && AllEnded(targets, cfg, runs)
    requires c in stats && stats[c].counts == Counts(|targets|, 0, 0, 0, 0)
    ensures Fires(Counted(stats, flushed)[c]) <==> Sum(Surpluses(targets, cfg, runs)) == 0
  {
    AllFinished(c, targets, cfg, runs, flushed);
    FlushedWellFormed(c, targets, cfg, runs, flushed);
    ChangesFire(stats, c, targets, flushed);
    SharesAddUp(flushed, c, targets);
    SharesAreSurpluses(c, targets, cfg, runs, flushed);
  }

  /** Exactly when the checker finds a campaign complete, everything having been
      written and flushed: every card has ended, and the messages sent beyond one
      each are made up for by as many cards that overflowed before anything was
      sent to them. */
  lemma FiresExactly(c: CampaignId, targets: set<CardId>, cfg: map<CardId, Config>, runs: map<CardId, seq<Step>>,
                     db: Db, batches: seq<seq<Change>>)
    requires Underway(c, targets, cfg, runs) && Drained(c, targets, cfg, runs, Flatten(batches))
    requires c in db.stats && db.stats[c].counts == Counts(|targets|, 0, 0, 0, 0)
    ensures c in WriteBatches(db, batches).stats
    ensures Fires(WriteBatches(db, batches).stats[c]) <==>
            AllEnded(targets, cfg, runs) && Sum(Surpluses(targets, cfg, runs)) == 0
  {
    CompletionSafe(c, targets, cfg, runs, db, batches);
    StatsOfBatches(db, batches);
    AllFinished(c, targets, cfg, runs, Flatten(batches));
    if AllEnded(targets, cfg, runs) {
      EndedFires(c, targets, cfg, runs, db.stats, Flatten(batches));
    }
  }

  lemma SurplusExactly(w: World)
    requires w.sent != []
    ensures Surplus(w) >= 0 && (Surplus(w) == 0 <==> |w.sent| == 1 && w.end != Some(PartSubmitted))
  {
  }

  /** The card ended after one message, submitted whole. */
  predicate Plain(w: World) {
    w.end.Some? && w.end != Some(PartSubmitted) && |w.sent| == 1
  }

  /** Without such overflows: every card was sent exactly one message, and none
      ended by a partial submission.  A card sent two commands, or retried,
      keeps its campaign from being found complete once all is flushed. */
  lemma FiresWithoutOverflow(c: CampaignId, targets: set<CardId>, cfg: map<CardId, Config>, runs: map<CardId, seq<Step>>,
                             db: Db, batches: seq<seq<Change>>)
    requires Underway(c, targets, cfg, runs) && Drained(c, targets, cfg, runs, Flatten(batches))
    requires c in db.stats && db.stats[c].counts == Counts(|targets|, 0, 0, 0, 0)
    requires forall k :: k in targets ==> WorldOf(cfg, runs, k).sent != []
    ensures c in WriteBatches(db, batches).stats
    ensures Fires(WriteBatches(db, batches).stats[c]) <==> forall k :: k in targets ==> Plain(WorldOf(cfg, runs, k))
  {
    FiresExactly(c, targets, cfg, runs, db, batches);
    PlainSurpluses(targets, cfg, runs);
  }

  lemma PlainSurpluses(targets: set<CardId>, cfg: map<CardId, Config>, runs: map<CardId, seq<Step>>)
    requires forall k :: k in targets ==> k in cfg && k in runs && Exec(cfg[k], Start(cfg[k]), runs[k]).Some?
    requires forall k :: k in targets ==> WorldOf(cfg, runs, k).sent != []
    ensures AllEnded(targets, cfg, runs) && Sum(Surpluses(targets, cfg, runs)) == 0 <==>
            forall k :: k in targets ==> Plain(WorldOf(cfg, runs, k))
  {
    var m := Surpluses(targets, cfg, runs);
    forall k | k in targets ensures m[k] >= 0 && (m[k] == 0 && WorldOf(cfg, runs, k).end.Some? <==> Plain(WorldOf(cfg, runs, k))) {
      SurplusExactly(WorldOf(cfg, runs, k));
    }
    SumOfNaturals(m);
  }

  // ------------------------------------------------------- a card sent two messages

  /** The card of c is the campaign's only target, and has done these steps. */
  ghost predicate Alone(c: Config, steps: seq<Step>) {
    Underway(c.campaign, {c.card}, map[c.card := c], map[c.card := steps])
  }

  lemma AloneUnderway(c: Config, steps: seq<Step>, end: World)
    requires AllRespond(c) && Reaches(c, Start(c), steps, end)
    ensures Alone(c, steps) && WorldOf(map[c.card := c], map[c.card := steps], c.card) == end
  {
  }

  /** What is flushed is a part of the card's changes. */
  lemma AloneEmitted(c: Config, steps: seq<Step>, end: World, flushed: seq<Change>)
    requires AllRespond(c) && Reaches(c, Start(c), steps, end) && multiset(flushed) <= multiset(end.changes)
    requires forall e :: e in end.changes ==> e.card == c.card && e.campaign == c.campaign
    ensures Alone(c, steps)
    ensures Emitted(c.campaign, {c.card}, map[c.card := c], map[c.card := steps], flushed)
  {
    AloneUnderway(c, steps, end);
    forall e | e in flushed ensures e in end.changes {
      assert e in multiset(flushed);
      assert e in multiset(end.changes);
    }
  }

  lemma {:induction false} OfOneCard(es: seq<Change>, k: CardId)
    requires forall e :: e in es ==> e.card == k
    ensures OfCard(es, k) == es
  {
    if es != [] {
      OfOneCard(es[..|es| - 1], k);
      assert es == es[..|es| - 1] + [es[|es| - 1]];
    }
  }

  lemma AloneDrained(c: Config, steps: seq<Step>, end: World, flushed: seq<Change>)
    requires AllRespond(c) && Reaches(c, Start(c), steps, end) && AllWritten(steps) && end.writes == []
    requires forall e :: e in end.changes ==> e.card == c.card && e.campaign == c.campaign
    requires multiset(flushed) == multiset(end.changes)
    ensures Alone(c, steps)
    ensures Drained(c.campaign, {c.card}, map[c.card := c], map[c.card := steps], flushed)
  {
    AloneUnderway(c, steps, end);
    AloneEmitted(c, steps, end, flushed);
    SameMembers(flushed, end.changes);
    OfOneCard(flushed, c.card);
  }

  /** Where a card has a second step, a run that ends with two messages sent and
      everything written is reachable. */
  lemma TwoSendsReached(c: Config)
    requires c.first in Sequences(c.commands) && ScanNext(c.commands, c.first) != -1
    requires ScanNext(c.commands, c.first) in Sequences(c.commands)
    ensures exists steps, end :: Reaches(c, Start(c), steps, end) && AllWritten(steps)
              && end.writes == [] && end.end == Some(Declined) && |end.sent| == 2
  {
    TwoRefusedReached(c);
    RefusedWritten();
  }

  lemma RefusedWritten()
    ensures AllWritten(SECOND_REFUSED)
  {
    assert SECOND_REFUSED == [Activate(Sent), WriteState(0, true), MoLoad(0, 0, Hit), MoEffect(0, Accepted, true),
                              Activate(Sent), WriteState(0, true), MoLoad(0, 1, Hit), MoEffect(0, Refused, true)];
  }

  lemma PairFires(stats: Stats, c: CampaignId, e: Change, f: Change)
    requires c in stats && stats[c].counts == Counts(1, 0, 0, 0, 0) && e.card == f.card
    requires Moves(c, e) && e.status == InProgress && Moves(c, f) && f.status.Terminal() && f.statsFrom == InProgress
    ensures Fires(Counted(stats, [e, f])[c])
  {
    var es := [e, f];
    assert es[..1] == [e] && [e][..0] == [];
    assert Finished(es) == {e.card} by {
      assert f in es;
    }
    assert Gain(e, c) == 1 && Gain(f, c) == -1;
    assert Gains([e], c) == Gains([e][..0], c) + Gain(e, c);
    assert Gains(es, c) == Gains(es[..1], c) + Gain(f, c);
    assert |{e.card}| == 1;
    ChangesFire(stats, c, {e.card}, es);
  }

  lemma RefusedChanges(c: Config)
    ensures forall e :: e in TwoRefused(c).changes ==> e.card == c.card && e.campaign == c.campaign
    ensures multiset([Activation(c, c.first, 0), Refusal(c, 2)]) <= multiset(TwoRefused(c).changes)
  {
    var next := ScanNext(c.commands, c.first);
    assert TwoRefused(c).changes == [Activation(c, c.first, 0), Activation(c, next, 1), Refusal(c, 2)];
    assert multiset(TwoRefused(c).changes) == multiset{Activation(c, c.first, 0), Activation(c, next, 1), Refusal(c, 2)};
  }

  /** Before everything is flushed the test may pass: every campaign with a second
      step has a run in which its card was sent two messages and has ended, and
      with all its changes flushed but one activation the test passes. */
  lemma UnflushedFires(c: Config, stats: Stats)
    requires AllRespond(c) && c.first in Sequences(c.commands)
    requires ScanNext(c.commands, c.first) != -1 && ScanNext(c.commands, c.first) in Sequences(c.commands)
    requires c.campaign in stats && stats[c.campaign].counts == Counts(1, 0, 0, 0, 0)
    ensures exists steps, end, flushed ::
              && Reaches(c, Start(c), steps, end) && |end.sent| == 2 && end.end.Some? && Alone(c, steps)
              && Emitted(c.campaign, {c.card}, map[c.card := c], map[c.card := steps], flushed)
              && |end.changes| == |flushed| + 1 && Fires(Counted(stats, flushed)[c.campaign])
  {
    var flushed := [Activation(c, c.first, 0), Refusal(c, 2)];
    TwoRefusedReached(c);
    RefusedChanges(c);
    AloneEmitted(c, SECOND_REFUSED, TwoRefused(c), flushed);
    PairFires(stats, c.campaign, flushed[0], flushed[1]);
  }

  /** The stall: the same campaign with everything flushed, in any batches and
      order.  Its only card has ended and nothing is left to happen, but the test
      does not pass. */
  lemma StallReached(c: Config, db: Db)
    requires AllRespond(c) && c.first in Sequences(c.commands)
    requires ScanNext(c.commands, c.first) != -1 && ScanNext(c.commands, c.first) in Sequences(c.commands)
    requires c.campaign in db.stats && db.stats[c.campaign].counts == Counts(1, 0, 0, 0, 0)
    ensures exists steps, end ::
              && Reaches(c, Start(c), steps, end) && end.end.Some? && Alone(c, steps)
              && end.acts == [] && end.handlers == map[] && end.writes == [] && UndecidedMsgs(end) == {}
              && forall batches :: Schedules(batches, end.changes) ==>
                   && Drained(c.campaign, {c.card}, map[c.card := c], map[c.card := steps], Flatten(batches))
                   && c.campaign in WriteBatches(db, batches).stats
                   && !Fires(WriteBatches(db, batches).stats[c.campaign])
  {
    TwoRefusedReached(c);
    RefusedWritten();
    RefusedChanges(c);
    AloneUnderway(c, SECOND_REFUSED, TwoRefused(c));
    forall batches | Schedules(batches, TwoRefused(c).changes)
      ensures Drained(c.campaign, {c.card}, map[c.card := c], map[c.card := SECOND_REFUSED], Flatten(batches))
      ensures c.campaign in WriteBatches(db, batches).stats && !Fires(WriteBatches(db, batches).stats[c.campaign])
    {
      AloneDrained(c, SECOND_REFUSED, TwoRefused(c), Flatten(batches));
      RefusedStalls(c, db, batches);
    }
  }

  lemma RefusedStalls(c: Config, db: Db, batches: seq<seq<Change>>)
    requires AllRespond(c) && Reaches(c, Start(c), SECOND_REFUSED, TwoRefused(c)) && Alone(c, SECOND_REFUSED)
    requires Drained(c.campaign, {c.card}, map[c.card := c], map[c.card := SECOND_REFUSED], Flatten(batches))
    requires c.campaign in db.stats && db.stats[c.campaign].counts == Counts(1, 0, 0, 0, 0)
    ensures c.campaign in WriteBatches(db, batches).stats && !Fires(WriteBatches(db, batches).stats[c.campaign])
  {
    var cfg, runs := map[c.card := c], map[c.card := SECOND_REFUSED];
    AloneUnderway(c, SECOND_REFUSED, TwoRefused(c));
    assert |{c.card}| == 1;
    FiresWithoutOverflow(c.campaign, {c.card}, cfg, runs, db, batches);
    assert !Plain(WorldOf(cfg, runs, c.card));
  }
}
