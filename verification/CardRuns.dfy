/** Runs of the card protocol that every campaign has, step by step: a first
    message answered, a second one sent and refused. */
module CardRuns {
  import opened Common
  import opened CardStates
  import opened CardProtocol

  lemma ReachesNext(c: Config, w0: World, steps: seq<Step>, w: World, s: Step)
    requires Reaches(c, w0, steps, w) && Enabled(w, s)
    ensures Reaches(c, w0, steps + [s], Next(c, w, s))
  {
    assert Reaches(c, Next(c, w, s), [], Next(c, w, s));
    ReachesStep(c, w, s, [], Next(c, w, s));
    assert [s] + [] == [s];
    ReachesThen(c, w0, steps, w, [s], Next(c, w, s));
  }

  /** The change an activation writes on an object nothing has moved yet. */
  function Activation(c: Config, step: int, n: nat): Change {
    NewChange(c, InProgress, step, 0, Some(n), n, 1, Pending)
  }

  function NewObject(step: int): CardState {
    CardState(step, AwaitingDlr, 0, 1)
  }

  // --------------------------------------------------------- pieces of longer runs

  /** The only queued activation is sent. */
  lemma Sends(c: Config, w0: World, steps: seq<Step>, w: World, a: Act) returns (w1: World)
    requires Reaches(c, w0, steps, w) && w.acts == [a] && a.step in Sequences(c.commands)
    ensures Reaches(c, w0, steps + [Activate(Sent)], w1)
    ensures w1 == w.(acts := [], objs := w.objs + [CardState(a.step, AwaitingDlr, a.retry, 1)], cache := Some(|w.objs|),
                     msgs := w.msgs + [Msg(None, false)], sent := w.sent + [a], clock := w.clock + 1,
                     writes := w.writes + [Write(|w.objs|, a.step, a.retry, |w.msgs|, w.clock)])
  {
    CommandAtFacts(c.commands, a.step);
    ReachesNext(c, w0, steps, w, Activate(Sent));
    w1 := Next(c, w, Activate(Sent));
    assert [a][1..] == [];
  }

  /** An answer to message m is taken on the cached object, and the card goes on. */
  lemma GoesOn(c: Config, w0: World, steps: seq<Step>, w: World, m: nat, obj: nat, h: nat) returns (w2: World)
    requires Reaches(c, w0, steps, w) && m < |w.msgs| && w.msgs[m].Undecided() && h !in w.handlers && w.acts == []
    requires w.cache == Some(obj) && obj < |w.objs| && MoAccepted(w.objs[obj].status)
    requires w.objs[obj].step in Sequences(c.commands) && ScanNext(c.commands, w.objs[obj].step) != -1
    ensures Reaches(c, w0, steps + [MoLoad(h, m, Hit)] + [MoEffect(h, Accepted, true)], w2)
    ensures w2 == w.(acts := [Act(ScanNext(c.commands, w.objs[obj].step), 0)], msgs := w.msgs[m := w.msgs[m].(mo := true)])
  {
    CommandAtFacts(c.commands, w.objs[obj].step);
    var s1, s2 := MoLoad(h, m, Hit), MoEffect(h, Accepted, true);
    ReachesNext(c, w0, steps, w, s1);
    var w1 := Next(c, w, s1);
    assert w1.handlers == w.handlers[h := MoHandler(obj)];
    ReachesNext(c, w0, steps + [s1], w1, s2);
    w2 := Next(c, w1, s2);
    assert w1.handlers - {h} == w.handlers;
  }

  /** A report of message m is loaded on the cached object, and tested. */
  lemma Reports(c: Config, w0: World, steps: seq<Step>, w: World, m: nat, obj: nat, h: nat, r: Report) returns (w2: World)
    requires Reaches(c, w0, steps, w) && m < |w.msgs| && w.msgs[m] == Msg(None, false) && h !in w.handlers
    requires w.cache == Some(obj) && obj < |w.objs| && Awaiting(w.objs[obj].status)
    ensures Reaches(c, w0, steps + [DlrLoad(h, m, r, Hit)] + [DlrCheck(h)], w2)
    ensures w2 == w.(msgs := w.msgs[m := Msg(Some(r), false)], handlers := w.handlers[h := DlrHandler(obj, r, true)])
  {
    var s1, s2 := DlrLoad(h, m, r, Hit), DlrCheck(h);
    ReachesNext(c, w0, steps, w, s1);
    var w1 := Next(c, w, s1);
    assert w1.handlers == w.handlers[h := DlrHandler(obj, r, false)];
    ReachesNext(c, w0, steps + [s1], w1, s2);
    w2 := Next(c, w1, s2);
    assert w1.handlers[h := DlrHandler(obj, r, true)] == w.handlers[h := DlrHandler(obj, r, true)];
  }

  // ----------------------------------------------------------------- one message

  function OneSent(c: Config): World {
    World([NewObject(c.first)], Some(0), {}, [], [Msg(None, false)], map[], [Write(0, c.first, 0, 0, 0)], [], 1,
          [Act(c.first, 0)], None)
  }

  lemma OneSentReached(c: Config)
    requires c.first in Sequences(c.commands)
    ensures Reaches(c, Start(c), [Activate(Sent)], OneSent(c))
  {
    CommandAtFacts(c.commands, c.first);
    assert Reaches(c, Start(c), [], Start(c));
    ReachesNext(c, Start(c), [], Start(c), Activate(Sent));
    assert [] + [Activate(Sent)] == [Activate(Sent)];
    assert [Act(c.first, 0)][1..] == [];
    assert ActivateStep(c, Start(c), Sent) == OneSent(c);
  }

  /** The same with the activation's change written. */
  function OneWritten(c: Config): World {
    OneSent(c).(writes := [], changes := [Activation(c, c.first, 0)])
  }

  const FIRST_WRITTEN: seq<Step> := [Activate(Sent)] + [WriteState(0, true)]

  lemma OneWrittenReached(c: Config)
    requires c.first in Sequences(c.commands)
    ensures Reaches(c, Start(c), FIRST_WRITTEN, OneWritten(c))
  {
    OneSentReached(c);
    ReachesNext(c, Start(c), [Activate(Sent)], OneSent(c), WriteState(0, true));
    assert WriteStep(c, OneSent(c), 0, true) == OneWritten(c);
  }

  /** The only message of w is answered, and the answer is in hand. */
  function Answering(w: World, msg: nat, obj: nat): World
    requires msg < |w.msgs|
  {
    w.(msgs := w.msgs[msg := w.msgs[msg].(mo := true)], handlers := map[0 := MoHandler(obj)])
  }

  lemma AnsweringReached(c: Config, steps: seq<Step>, w: World, msg: nat, obj: nat)
    requires Reaches(c, Start(c), steps, w) && w.handlers == map[] && msg < |w.msgs| && w.msgs[msg].Undecided()
    requires w.cache == Some(obj) && obj < |w.objs| && MoAccepted(w.objs[obj].status)
    ensures Reaches(c, Start(c), steps + [MoLoad(0, msg, Hit)], Answering(w, msg, obj))
  {
    ReachesNext(c, Start(c), steps, w, MoLoad(0, msg, Hit));
    assert map[][0 := MoHandler(obj)] == map[0 := MoHandler(obj)];
  }

  function OneAnswered(c: Config): World {
    OneWritten(c).(msgs := [Msg(None, true)], acts := [Act(ScanNext(c.commands, c.first), 0)])
  }

  const FIRST_ANSWERED: seq<Step> := FIRST_WRITTEN + [MoLoad(0, 0, Hit)] + [MoEffect(0, Accepted, true)]

  lemma AcceptedIs(c: Config, w: World)
    requires w == Answering(OneWritten(c), 0, 0) && CommandAt(c.commands, c.first).Some?
    requires ScanNext(c.commands, c.first) != -1
    ensures MoEffectStep(c, w, 0, Accepted, true) == OneAnswered(c)
  {
    assert w.handlers - {0} == map[];
    assert w.msgs == [Msg(None, true)];
  }

  lemma OneAnsweredReached(c: Config)
    requires c.first in Sequences(c.commands) && ScanNext(c.commands, c.first) != -1
    ensures Reaches(c, Start(c), FIRST_ANSWERED, OneAnswered(c))
  {
    CommandAtFacts(c.commands, c.first);
    OneWrittenReached(c);
    AnsweringReached(c, FIRST_WRITTEN, OneWritten(c), 0, 0);
    var w := Answering(OneWritten(c), 0, 0);
    ReachesNext(c, Start(c), FIRST_WRITTEN + [MoLoad(0, 0, Hit)], w, MoEffect(0, Accepted, true));
    AcceptedIs(c, w);
  }

  /** The final change after a refusal on an object nothing else has moved. */
  function Refusal(c: Config, at: nat): Change {
    NewChange(c, Failed, 0, 0, None, at, 2, InProgress)
  }

  /** The first message refused before its activation's change was written. */
  function OneRefused(c: Config): World {
    OneSent(c).(objs := [NewObject(c.first).(transition := 2)], cache := None, msgs := [Msg(None, true)],
                changes := [Refusal(c, 1)], clock := 2, end := Some(Declined))
  }

  /** Then it is written, with the number the object has by now. */
  function OneLate(c: Config): World {
    OneRefused(c).(writes := [], changes := [Refusal(c, 1), Activation(c, c.first, 0).(transition := 2)])
  }

  const LATE_WRITTEN: seq<Step> := [Activate(Sent)] + [MoLoad(0, 0, Hit)] + [MoEffect(0, Refused, true)] + [WriteState(0, true)]

  lemma OneRefusedIs(c: Config, w: World)
    requires w == Answering(OneSent(c), 0, 0) && CommandAt(c.commands, c.first).Some?
    ensures MoEffectStep(c, w, 0, Refused, true) == OneRefused(c)
  {
    assert w.handlers - {0} == map[];
    assert w.msgs == [Msg(None, true)];
  }

  lemma OneLateReached(c: Config)
    requires c.first in Sequences(c.commands)
    ensures Reaches(c, Start(c), LATE_WRITTEN, OneLate(c))
  {
    CommandAtFacts(c.commands, c.first);
    OneSentReached(c);
    AnsweringReached(c, [Activate(Sent)], OneSent(c), 0, 0);
    var w, steps := Answering(OneSent(c), 0, 0), [Activate(Sent)] + [MoLoad(0, 0, Hit)];
    ReachesNext(c, Start(c), steps, w, MoEffect(0, Refused, true));
    OneRefusedIs(c, w);
    ReachesNext(c, Start(c), steps + [MoEffect(0, Refused, true)], OneRefused(c), WriteState(0, true));
    assert WriteStep(c, OneRefused(c), 0, true) == OneLate(c);
  }

  // ---------------------------------------------------------------- two messages

  function TwoSent(c: Config): World {
    var next := ScanNext(c.commands, c.first);
    World([NewObject(c.first), NewObject(next)], Some(1), {}, [], [Msg(None, true), Msg(None, false)], map[],
          [Write(1, next, 0, 1, 1)], [Activation(c, c.first, 0)], 2, [Act(c.first, 0), Act(next, 0)], None)
  }

  lemma TwoSentReached(c: Config)
    requires c.first in Sequences(c.commands)
    requires ScanNext(c.commands, c.first) != -1 && ScanNext(c.commands, c.first) in Sequences(c.commands)
    ensures Reaches(c, Start(c), FIRST_ANSWERED + [Activate(Sent)], TwoSent(c))
  {
    CommandAtFacts(c.commands, ScanNext(c.commands, c.first));
    OneAnsweredReached(c);
    ReachesNext(c, Start(c), FIRST_ANSWERED, OneAnswered(c), Activate(Sent));
    assert ActivateStep(c, OneAnswered(c), Sent) == TwoSent(c);
  }

  function TwoWritten(c: Config): World {
    var next := ScanNext(c.commands, c.first);
    TwoSent(c).(writes := [], changes := [Activation(c, c.first, 0), Activation(c, next, 1)])
  }

  const SECOND_WRITTEN: seq<Step> := FIRST_ANSWERED + [Activate(Sent)] + [WriteState(0, true)]

  lemma TwoWrittenReached(c: Config)
    requires c.first in Sequences(c.commands)
    requires ScanNext(c.commands, c.first) != -1 && ScanNext(c.commands, c.first) in Sequences(c.commands)
    ensures Reaches(c, Start(c), SECOND_WRITTEN, TwoWritten(c))
  {
    TwoSentReached(c);
    ReachesNext(c, Start(c), FIRST_ANSWERED + [Activate(Sent)], TwoSent(c), WriteState(0, true));
    assert WriteStep(c, TwoSent(c), 0, true) == TwoWritten(c);
  }

  function TwoRefused(c: Config): World {
    var next := ScanNext(c.commands, c.first);
    TwoWritten(c).(objs := [NewObject(c.first), NewObject(next).(transition := 2)], cache := None,
                   msgs := [Msg(None, true), Msg(None, true)],
                   changes := [Activation(c, c.first, 0), Activation(c, next, 1), Refusal(c, 2)],
                   clock := 3, end := Some(Declined))
  }

  const SECOND_REFUSED: seq<Step> := SECOND_WRITTEN + [MoLoad(0, 1, Hit)] + [MoEffect(0, Refused, true)]

  lemma TwoRefusedReached(c: Config)
    requires c.first in Sequences(c.commands)
    requires ScanNext(c.commands, c.first) != -1 && ScanNext(c.commands, c.first) in Sequences(c.commands)
    ensures Reaches(c, Start(c), SECOND_REFUSED, TwoRefused(c))
  {
    CommandAtFacts(c.commands, ScanNext(c.commands, c.first));
    TwoWrittenReached(c);
    AnsweringReached(c, SECOND_WRITTEN, TwoWritten(c), 1, 1);
    var w := Answering(TwoWritten(c), 1, 1);
    ReachesNext(c, Start(c), SECOND_WRITTEN + [MoLoad(0, 1, Hit)], w, MoEffect(0, Refused, true));
    RefusedIs(c, w);
  }

  lemma RefusedIs(c: Config, w: World)
    requires w == Answering(TwoWritten(c), 1, 1) && CommandAt(c.commands, ScanNext(c.commands, c.first)).Some?
    ensures MoEffectStep(c, w, 0, Refused, true) == TwoRefused(c)
  {
    assert w.handlers - {0} == map[];
    assert w.changes + [Refusal(c, 2)] == TwoRefused(c).changes;
  }
}
