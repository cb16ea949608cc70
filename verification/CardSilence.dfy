/** Commands that expect no answer: what their delivery reports do, exactly when
    they break the single token, and why their campaigns do not end. */
module CardSilence {
  import opened Common
  import opened CardStates
  import opened CardProtocol
  import opened CardTokens

  /** A delivered report for a command that expects no answer goes on from the
      report's own step, which is 0 whatever the card's step: it completes the
      card exactly when no command has a positive sequence, and otherwise
      activates the least of them. */
  lemma DeliveredWithoutAnswer(c: Config, w: World, h: nat, written: bool)
    requires Enabled(w, DlrEffect(h, written)) && w.handlers[h].report == Delivered
    requires Silent(c, w.objs[w.handlers[h].obj].step)
    ensures var w', next := Next(c, w, DlrEffect(h, written)), ScanNext(c.commands, 0);
            && w'.msgs == w.msgs && w'.handlers == w.handlers - {h} && w'.sent == w.sent
            && (if forall s :: s in Sequences(c.commands) ==> s <= 0
                then next == -1 && w'.acts == w.acts && w'.end == Some(Accomplished)
                     && (written ==>
                           && |w'.changes| == |w.changes| + 1 && w'.changes[..|w.changes|] == w.changes
                           && var e := w'.changes[|w.changes|];
                              e.status == Completed && e.statsFrom == InProgress && e.statsTo == Completed
                              && e.card == c.card && e.campaign == c.campaign)
                else w'.acts == w.acts + [Act(next, 0)] && w'.changes == w.changes
                     && next in Sequences(c.commands) && next > 0
                     && forall s :: s in Sequences(c.commands) && s > 0 ==> next <= s)
  {
    ScanFindsLeast(c.commands, 0);
  }

  // -------------------------------------------------------------- one more attempt

  /** Sending the queued activation, loading its delivered report and testing it. */
  function Reporting(n: nat): seq<Step> {
    [Activate(Sent)] + ([DlrLoad(0, n, Delivered, Hit)] + ([DlrCheck(0)] + []))
  }

  lemma SendAndReport(c: Config, w: World) returns (w3: World)
    requires |w.acts| == 1 && w.handlers == map[] && CommandAt(c.commands, w.acts[0].step).Some?
    ensures Reaches(c, w, Reporting(|w.msgs|), w3)
    ensures w3.acts == [] && w3.sent == w.sent + w.acts && w3.changes == w.changes
    ensures w3.msgs == w.msgs + [Msg(Some(Delivered), false)]
    ensures |w3.objs| == |w.objs| + 1 && w3.handlers == map[0 := DlrHandler(|w.objs|, Delivered, true)]
    ensures w3.objs[|w.objs|].step == w.acts[0].step
  {
    var s1, s2, s3 := Activate(Sent), DlrLoad(0, |w.msgs|, Delivered, Hit), DlrCheck(0);
    var w1 := Next(c, w, s1);
    var w2 := Next(c, w1, s2);
    assert w2.handlers == map[0 := DlrHandler(|w.objs|, Delivered, false)];
    w3 := Next(c, w2, s3);
    assert Reaches(c, w3, [], w3);
    ReachesStep(c, w2, s3, [], w3);
    ReachesStep(c, w1, s2, [s3] + [], w3);
    ReachesStep(c, w, s1, [s2] + ([s3] + []), w3);
  }

  /** Sending the queued activation and taking its answer: on to the next step. */
  lemma SendAndAnswer(c: Config, w: World) returns (steps: seq<Step>, w3: World)
    requires |w.acts| == 1 && w.handlers == map[] && CommandAt(c.commands, w.acts[0].step).Some?
    requires ScanNext(c.commands, w.acts[0].step) != -1
    ensures Reaches(c, w, steps, w3)
    ensures w3.acts == [Act(ScanNext(c.commands, w.acts[0].step), 0)] && w3.handlers == map[]
  {
    var s1, s2, s3 := Activate(Sent), MoLoad(0, |w.msgs|, Hit), MoEffect(0, Accepted, true);
    var w1 := Next(c, w, s1);
    var w2 := Next(c, w1, s2);
    assert w2.handlers == map[0 := MoHandler(|w.objs|)];
    w3 := Next(c, w2, s3);
    assert w3.handlers == map[];
    assert Reaches(c, w3, [], w3);
    ReachesStep(c, w2, s3, [], w3);
    ReachesStep(c, w1, s2, [s3] + [], w3);
    ReachesStep(c, w, s1, [s2] + ([s3] + []), w3);
    steps := [s1] + ([s2] + ([s3] + []));
  }

  /** Steps between one and another. */
  function Between(c: Config, low: int, high: int): set<int> {
    set s | s in Sequences(c.commands) && low < s <= high
  }

  /** Every step from the card's first one on can be reached, by answers alone. */
  lemma {:induction false} StepReached(c: Config, w: World, target: int) returns (steps: seq<Step>, end: World)
    requires |w.acts| == 1 && w.handlers == map[] && -1 <= w.acts[0].step <= target
    requires w.acts[0].step in Sequences(c.commands) && target in Sequences(c.commands)
    ensures Reaches(c, w, steps, end) && |end.acts| == 1 && end.acts[0].step == target && end.handlers == map[]
    decreases |Between(c, w.acts[0].step, target)|
  {
    var step := w.acts[0].step;
    if step == target {
      steps, end := [], w;
    } else {
      CommandAtFacts(c.commands, step);
      ScanFindsLeast(c.commands, step);
      var next := ScanNext(c.commands, step);
      var a, w' := SendAndAnswer(c, w);
      assert Between(c, next, target) < Between(c, step, target) by {
        assert next in Between(c, step, target) && next !in Between(c, next, target);
      }
      SubsetSize(Between(c, next, target) + {next}, Between(c, step, target));
      var b;
      b, end := StepReached(c, w', target);
      ReachesThen(c, w, a, w', b, end);
      steps := a + b;
    }
  }

  // ------------------------------------------------------------------ two tokens

  ghost predicate SingleTokenAlways(c: Config) {
    forall steps, end :: Reaches(c, Start(c), steps, end) ==> Tokens(end) <= 1
  }

  lemma SilentDoubles(c: Config, w: World) returns (steps: seq<Step>, end: World)
    requires |w.acts| == 1 && w.handlers == map[] && Silent(c, w.acts[0].step)
    ensures Reaches(c, w, steps, end) && Tokens(end) >= 2
  {
    var w2 := SendAndReport(c, w);
    var s3 := DlrEffect(0, true);
    DeliveredWithoutAnswer(c, w2, 0, true);
    end := Next(c, w2, s3);
    assert |w.msgs| in UndecidedMsgs(end);
    SubsetSize({|w.msgs|}, UndecidedMsgs(end));
    assert Reaches(c, end, [], end);
    ReachesStep(c, w2, s3, [], end);
    var a := Reporting(|w.msgs|);
    ReachesThen(c, w, a, w2, [s3] + [], end);
    steps := a + ([s3] + []);
  }

  /** A card keeps a single token in every run exactly when every command from
      its first one on expects an answer. */
  lemma SingleTokenExactly(c: Config)
    requires c.first in Sequences(c.commands) && c.first >= -1
    ensures SingleTokenAlways(c) <==> AllRespond(c)
  {
    if AllRespond(c) {
      forall steps, end | Reaches(c, Start(c), steps, end) ensures Tokens(end) <= 1 {
        SingleToken(c, steps);
      }
    } else {
      var s :| s in Sequences(c.commands) && s >= c.first && Silent(c, s);
      var a, w := StepReached(c, Start(c), s);
      var b, end := SilentDoubles(c, w);
      ReachesThen(c, Start(c), a, w, b, end);
    }
  }

  // ------------------------------------------------------------------ no end

  lemma {:induction false} RunsOn(c: Config, w: World, n: nat) returns (steps: seq<Step>, end: World)
    requires |w.acts| == 1 && w.handlers == map[] && Silent(c, w.acts[0].step)
    requires ScanNext(c.commands, 0) != -1 && Silent(c, ScanNext(c.commands, 0))
    ensures Reaches(c, w, steps, end)
    ensures |end.sent| == |w.sent| + n && Finals(end.changes) == Finals(w.changes)
    decreases n
  {
    if n == 0 {
      steps, end := [], w;
    } else {
      var w2 := SendAndReport(c, w);
      DeliveredWithoutAnswer(c, w2, 0, true);
      ScanFindsLeast(c.commands, 0);
      var s3 := DlrEffect(0, true);
      var w3 := Next(c, w2, s3);
      assert w3.handlers == map[];
      var rest;
      rest, end := RunsOn(c, w3, n - 1);
      ReachesStep(c, w2, s3, rest, end);
      var a := Reporting(|w.msgs|);
      ReachesThen(c, w, a, w2, [s3] + rest, end);
      steps := a + ([s3] + rest);
    }
  }

  /** Where the card's first command and the least positive one expect no answer,
      the card can be activated any number of times, every report being a
      delivery, and never finishes. */
  lemma NoAnswerNeverEnds(c: Config, n: nat)
    requires Silent(c, c.first) && ScanNext(c.commands, 0) != -1 && Silent(c, ScanNext(c.commands, 0))
    ensures exists steps, end :: Reaches(c, Start(c), steps, end) && |end.sent| == n && Finals(end.changes) == 0
  {
    var steps, end := RunsOn(c, Start(c), n);
  }
}
