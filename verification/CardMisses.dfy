/** Lookups that find no cached object and store theirs late: each can send a card
    back to its first step once more. */
module CardMisses {
  import opened Common
  import opened CardStates
  import opened CardProtocol
  import opened CardTokens
  import opened CardRuns

  /** A decision on an object of the first step leads to another activation. */
  predicate GoesFurther(c: Config) {
    c.maxRetries > 1 || ScanNext(c.commands, c.first) != -1
  }

  /** That activation: a retry where there is one, else the next step. */
  function Further(c: Config): Act {
    if c.maxRetries > 1 then Act(c.first, 1) else Act(ScanNext(c.commands, c.first), 0)
  }

  ghost predicate Fit(c: Config) {
    && AllRespond(c) && GoesFurther(c) && c.first >= -1
    && c.first in Sequences(c.commands)
  }

  lemma FurtherKnown(c: Config)
    requires Fit(c)
    ensures Further(c).step in Sequences(c.commands)
  {
    ScanFindsLeast(c.commands, c.first);
  }

  /** The first activation's row. */
  function FirstRow(c: Config): CardState {
    CardState(c.first, InProgress, 0, 1)
  }

  /** The last message is undecided and unreported, nothing else is in hand, and the
      first activation's row may be found. */
  ghost predicate Waiting(c: Config, w: World) {
    && w.acts == [] && w.handlers == map[] && w.msgs != [] && w.msgs[|w.msgs| - 1] == Msg(None, false)
    && Durable(w, FirstRow(c))
  }

  /** An object of the first step and attempt that a report moves. */
  predicate OfFirst(c: Config, o: CardState) {
    o.step == c.first && o.retry == 0 && Awaiting(o.status)
  }

  /** A failing report has the first step attempted again. */
  lemma FailsAgain(c: Config, w0: World, steps: seq<Step>, w: World, obj: nat) returns (steps': seq<Step>, w': World)
    requires Reaches(c, w0, steps, w) && Waiting(c, w) && w.cache == Some(obj) && obj < |w.objs| && OfFirst(c, w.objs[obj])
    requires c.maxRetries > 1
    ensures steps <= steps' && Reaches(c, w0, steps', w') && w'.acts == [Further(c)] && w'.handlers == map[]
    ensures w'.changes == w.changes && w'.misses == w.misses && w'.sent == w.sent && |w'.msgs| == |w.msgs|
  {
    var m := |w.msgs| - 1;
    var w2 := Reports(c, w0, steps, w, m, obj, 0, Failing);
    var more := steps + [DlrLoad(0, m, Failing, Hit)] + [DlrCheck(0)];
    ReachesNext(c, w0, more, w2, DlrEffect(0, true));
    steps', w' := more + [DlrEffect(0, true)], Next(c, w2, DlrEffect(0, true));
    assert w'.handlers == map[];
  }

  /** A delivered report, and an answer, have it gone beyond again. */
  lemma Delivers(c: Config, w0: World, steps: seq<Step>, w: World, obj: nat) returns (steps': seq<Step>, w': World)
    requires Reaches(c, w0, steps, w) && Waiting(c, w) && w.cache == Some(obj) && obj < |w.objs| && OfFirst(c, w.objs[obj])
    requires Fit(c)
    ensures steps <= steps' && Reaches(c, w0, steps', w') && w'.acts == [] && w'.handlers == map[] && w'.cache == Some(obj)
    ensures obj < |w'.objs| && w'.objs[obj].step == c.first && w'.objs[obj].status == AwaitingMo
    ensures w'.msgs == w.msgs[|w.msgs| - 1 := Msg(Some(Delivered), false)]
    ensures w'.changes == w.changes && w'.misses == w.misses && w'.sent == w.sent
  {
    var m := |w.msgs| - 1;
    CommandAtFacts(c.commands, c.first);
    assert !Silent(c, c.first);
    var w2 := Reports(c, w0, steps, w, m, obj, 0, Delivered);
    var more := steps + [DlrLoad(0, m, Delivered, Hit)] + [DlrCheck(0)];
    ReachesNext(c, w0, more, w2, DlrEffect(0, true));
    steps', w' := more + [DlrEffect(0, true)], Next(c, w2, DlrEffect(0, true));
    assert w'.handlers == map[];
  }

  lemma AnswersAgain(c: Config, w0: World, steps: seq<Step>, w: World, obj: nat) returns (steps': seq<Step>, w': World)
    requires Reaches(c, w0, steps, w) && Waiting(c, w) && w.cache == Some(obj) && obj < |w.objs| && OfFirst(c, w.objs[obj])
    requires Fit(c) && c.maxRetries <= 1
    ensures steps <= steps' && Reaches(c, w0, steps', w') && w'.acts == [Further(c)] && w'.handlers == map[]
    ensures w'.changes == w.changes && w'.misses == w.misses && w'.sent == w.sent && |w'.msgs| == |w.msgs|
  {
    var more, w2 := Delivers(c, w0, steps, w, obj);
    var m := |w.msgs| - 1;
    w' := GoesOn(c, w0, more, w2, m, obj, 0);
    steps' := more + [MoLoad(0, m, Hit)] + [MoEffect(0, Accepted, true)];
  }

  /** The last message is decided on an object of the first step: one more is sent. */
  lemma SendsFurther(c: Config, w0: World, steps: seq<Step>, w: World, obj: nat) returns (steps': seq<Step>, w': World)
    requires Fit(c) && Reaches(c, w0, steps, w) && Waiting(c, w)
    requires w.cache == Some(obj) && obj < |w.objs| && OfFirst(c, w.objs[obj])
    ensures steps <= steps' && Reaches(c, w0, steps', w') && Waiting(c, w') && w'.sent == w.sent + [Further(c)] && w'.misses == w.misses
  {
    var more, w1;
    if c.maxRetries > 1 {
      more, w1 := FailsAgain(c, w0, steps, w, obj);
    } else {
      more, w1 := AnswersAgain(c, w0, steps, w, obj);
    }
    FurtherKnown(c);
    w' := Sends(c, w0, more, w1, Further(c));
    steps' := more + [Activate(Sent)];
  }

  /** A lookup that missed stores its object: the card is back at its first step. */
  lemma StoresFirst(c: Config, w0: World, steps: seq<Step>, w: World, id: nat) returns (w1: World)
    requires Reaches(c, w0, steps, w) && Waiting(c, w) && id in w.misses
    ensures Reaches(c, w0, steps + [Peek(Miss(id, FirstRow(c)))], w1) && Waiting(c, w1) && w1.cache == Some(|w.objs|)
    ensures w1.objs == w.objs + [FirstRow(c)] && w1.misses == w.misses - {id} && w1.sent == w.sent
  {
    ReachesNext(c, w0, steps, w, Peek(Miss(id, FirstRow(c))));
    w1 := Next(c, w, Peek(Miss(id, FirstRow(c))));
    assert Durable(w1, FirstRow(c));
  }

  /** So each such lookup can make one more message. */
  lemma MissSends(c: Config, w0: World, steps: seq<Step>, w: World, id: nat) returns (steps': seq<Step>, w': World)
    requires Fit(c) && Reaches(c, w0, steps, w) && Waiting(c, w) && id in w.misses
    ensures steps <= steps' && Reaches(c, w0, steps', w') && Waiting(c, w')
    ensures w'.sent == w.sent + [Further(c)] && w'.misses == w.misses - {id}
  {
    var w1 := StoresFirst(c, w0, steps, w, id);
    steps', w' := SendsFurther(c, w0, steps + [Peek(Miss(id, FirstRow(c)))], w1, |w.objs|);
  }

  /** The first message is sent and its change written. */
  lemma FirstSent(c: Config, w0: World, steps: seq<Step>, w: World) returns (steps': seq<Step>, w': World)
    requires Fit(c) && Reaches(c, w0, steps, w) && w.acts == [Act(c.first, 0)] && w.handlers == map[] && w.writes == []
    ensures Reaches(c, w0, steps', w') && steps' == steps + [Activate(Sent)] + [WriteState(0, true)]
    ensures Waiting(c, w') && w'.sent == w.sent + [Act(c.first, 0)] && w'.misses == w.misses
    ensures w'.cache == Some(|w.objs|) && |w'.objs| == |w.objs| + 1 && OfFirst(c, w'.objs[|w.objs|])
  {
    var w1 := Sends(c, w0, steps, w, Act(c.first, 0));
    ReachesNext(c, w0, steps + [Activate(Sent)], w1, WriteState(0, true));
    steps', w' := steps + [Activate(Sent)] + [WriteState(0, true)], Next(c, w1, WriteState(0, true));
    var e := w'.changes[|w.changes|];
    assert e in w'.changes && FirstRow(c) == CardState(e.step, e.status, e.retry, e.transition);
  }

  /** Sending the first step while such a lookup is outstanding can be followed by
      steps that send one activation twice. */
  lemma MissRepeats(c: Config, w: World, id: nat) returns (rest: seq<Step>, end: World)
    requires Fit(c) && w.acts == [Act(c.first, 0)] && w.handlers == map[] && w.writes == [] && id in w.misses
    ensures Reaches(c, w, [Activate(Sent)] + rest, end)
    ensures end.sent == w.sent + [Act(c.first, 0)] + [Further(c)] + [Further(c)]
  {
    assert Reaches(c, w, [], w);
    var s1, w1 := FirstSent(c, w, [], w);
    var s2, w2 := SendsFurther(c, w, s1, w1, |w.objs|);
    var s3;
    s3, end := MissSends(c, w, s2, w2, id);
    assert s1 <= s3 && s1[0] == Activate(Sent);
    rest := Tail(c, w, s3, end);
  }

  /** A run that starts by sending. */
  lemma Tail(c: Config, w: World, steps: seq<Step>, end: World) returns (rest: seq<Step>)
    requires Reaches(c, w, steps, end) && steps != [] && steps[0] == Activate(Sent)
    ensures Reaches(c, w, [Activate(Sent)] + rest, end)
  {
    rest := steps[1..];
    assert steps == [Activate(Sent)] + rest;
  }

  // ------------------------------------------------------------- any number of them

  function Below(n: nat): (s: set<nat>)
    ensures forall i :: i in s <==> 0 <= i < n
  {
    if n == 0 then {} else Below(n - 1) + {n - 1}
  }

  lemma {:induction false} ManyAbsent(c: Config, n: nat) returns (steps: seq<Step>)
    ensures Reaches(c, Start(c), steps, Start(c).(misses := Below(n)))
  {
    if n == 0 {
      steps := [];
    } else {
      steps := ManyAbsent(c, n - 1);
      var w := Start(c).(misses := Below(n - 1));
      ReachesNext(c, Start(c), steps, w, Absent(n - 1));
      steps := steps + [Absent(n - 1)];
    }
  }

  lemma {:induction false} AllStore(c: Config, w0: World, steps: seq<Step>, w: World, n: nat) returns (steps': seq<Step>, w': World)
    requires Fit(c) && Reaches(c, w0, steps, w) && Waiting(c, w) && Below(n) <= w.misses
    ensures Reaches(c, w0, steps', w') && |w'.sent| == |w.sent| + n
    decreases n
  {
    if n == 0 {
      steps', w' := steps, w;
    } else {
      var more, w1 := MissSends(c, w0, steps, w, n - 1);
      assert Below(n - 1) <= w1.misses;
      steps', w' := AllStore(c, w0, more, w1, n - 1);
    }
  }

  /** Where a card can be sent more than one message, there are runs with any number
      of them. */
  lemma SendsUnbounded(c: Config, n: nat) returns (steps: seq<Step>, end: World)
    requires Fit(c)
    ensures Reaches(c, Start(c), steps, end) && |end.sent| == n + 1
  {
    var s1 := ManyAbsent(c, n);
    var s2, w2 := FirstSent(c, Start(c), s1, Start(c).(misses := Below(n)));
    steps, end := AllStore(c, Start(c), s2, w2, n);
  }
}
