/** The executor's protocol for one card of one campaign, as a step system.

    Handlers run concurrently and take no lock.  First comes the lookup, which
    finds the card's state object in the shared cache, or finds none and later
    builds one from the newest durable row and stores it, whatever the cache
    holds by then.  A report is then tested against the object's status, and
    only later takes effect.  Objects are shared and mutated in place, so a late
    effect can act on, and put back into the cache, an object that an activation
    replaced in the meantime.  An activation is two steps as well: it caches a
    new object and sends the message, and later writes the change, with the
    transition number the object has by then. */
module CardProtocol {
  import opened Common
  import opened CardStates

  datatype Command = Command(sequence: int, expectResponse: bool)

  datatype Config = Config(card: CardId, campaign: CampaignId, commands: seq<Command>, maxRetries: int, first: int)

  // ------------------------------------------------------------ the next command

  function CommandAt(cs: seq<Command>, step: int): Option<Command> {
    if cs == [] then None
    else if cs[|cs| - 1].sequence == step then Some(cs[|cs| - 1])
    else CommandAt(cs[..|cs| - 1], step)
  }

  /** The scan for the next step, with its -1 for none yet. */
  function ScanNext(cs: seq<Command>, step: int): int {
    if cs == [] then -1
    else
      var next, s := ScanNext(cs[..|cs| - 1], step), cs[|cs| - 1].sequence;
      if s > step && (next == -1 || s < next) then s else next
  }

  method FindNextStep(commands: seq<Command>, step: int) returns (nextStep: int)
    ensures nextStep == ScanNext(commands, step)
  {
    nextStep := -1;
    var i := 0;
    while i < |commands|
      invariant 0 <= i <= |commands|
      invariant nextStep == ScanNext(commands[..i], step)
    {
      assert commands[..i + 1][..i] == commands[..i];
      var s := commands[i].sequence;
      if s > step {
        if nextStep == -1 || s < nextStep {
          nextStep := s;
        }
      }
      i := i + 1;
    }
    assert commands[..|commands|] == commands;
  }

  function Sequences(cs: seq<Command>): set<int> {
    set c | c in cs :: c.sequence
  }

  /** From -1 upwards the scan finds the least sequence above the step. */
  lemma {:induction false} ScanFindsLeast(cs: seq<Command>, step: int)
    requires step >= -1
    ensures var n := ScanNext(cs, step);
            if n == -1 then forall s :: s in Sequences(cs) ==> s <= step
            else n in Sequences(cs) && n > step && forall s :: s in Sequences(cs) && s > step ==> n <= s
  {
    if cs != [] {
      var past := cs[..|cs| - 1];
      ScanFindsLeast(past, step);
      assert Sequences(cs) == Sequences(past) + {cs[|cs| - 1].sequence} by {
        assert cs == past + [cs[|cs| - 1]];
        forall s | s in Sequences(cs) ensures s in Sequences(past) + {cs[|cs| - 1].sequence} {
          var c :| c in cs && c.sequence == s;
          assert c in past || c == cs[|cs| - 1];
        }
        forall s | s in Sequences(past) ensures s in Sequences(cs) {
          var c :| c in past && c.sequence == s;
          assert c in cs;
        }
        assert cs[|cs| - 1] in cs;
      }
    }
  }

  /** From any step the scan only goes up. */
  lemma {:induction false} ScanAbove(cs: seq<Command>, step: int)
    ensures ScanNext(cs, step) == -1 || ScanNext(cs, step) > step
  {
    if cs != [] {
      ScanAbove(cs[..|cs| - 1], step);
    }
  }

  lemma {:induction false} CommandAtFacts(cs: seq<Command>, step: int)
    ensures CommandAt(cs, step).Some? <==> step in Sequences(cs)
    ensures CommandAt(cs, step).Some? ==> CommandAt(cs, step).value in cs && CommandAt(cs, step).value.sequence == step
  {
    if cs != [] {
      var past := cs[..|cs| - 1];
      CommandAtFacts(past, step);
      assert forall c :: c in cs <==> c in past || c == cs[|cs| - 1];
    }
  }

  // ------------------------------------------------------------------- the world

  /** A card state object, as the cache holds it. */
  datatype CardState = CardState(step: int, status: Status, retry: int, transition: int)

  datatype Act = Act(step: int, retry: int)

  /** What a delivery report says, as the handler classes it. */
  datatype Report = Delivered | Failing | Partial | Unrecognised {
    predicate Decides() {
      Failing? || Partial?
    }
  }

  /** A message sent to the card, and the events it has caused so far. */
  datatype Msg = Msg(dlr: Option<Report>, mo: bool) {
    predicate Undecided() {
      !mo && !(dlr.Some? && dlr.value.Decides())
    }
  }

  /** `passed` tells that a report was found to move its object. */
  datatype Handler = DlrHandler(obj: nat, report: Report, passed: bool) | MoHandler(obj: nat) {
    predicate Decides() {
      MoHandler? || report.Decides()
    }
  }

  /** An activation whose change is still to be written. */
  datatype Write = Write(obj: nat, step: int, retry: int, msg: nat, at: nat)

  /** How a card ends: its last command accepted, a command refused, its
      attempts used up, a message submitted in part, or no room for a retry. */
  datatype End = Accomplished | Declined | Exhausted | PartSubmitted | Overflowed

  /** `misses` are the lookups that found no cached object and have not stored one
      yet.  `sent` and `end` are history, `clock` stamps the changes. */
  datatype World = World(
    objs: seq<CardState>, cache: Option<nat>, misses: set<nat>, acts: seq<Act>, msgs: seq<Msg>,
    handlers: map<nat, Handler>, writes: seq<Write>, changes: seq<Change>, clock: nat,
    sent: seq<Act>, end: Option<End>)

  function Start(c: Config): World {
    World([], None, {}, [Act(c.first, 0)], [], map[], [], [], 0, [], None)
  }

  /** Dropped before anything happened, or after caching the object, or sent. */
  datatype Fate = Dropped | StateOnly | Sent

  datatype Answer = Accepted | Refused | Unreadable

  /** How a lookup ends: the cached object, or one built from the durable row a
      miss found. */
  datatype Lookup = Hit | Miss(id: nat, row: CardState)

  /** `Absent` is a lookup that finds no cached object; `written` tells whether a
      change reached its writer. */
  datatype Step =
    | Activate(fate: Fate)
    | WriteState(index: nat, written: bool)
    | Throttle
    | Absent(id: nat)
    | Overflow(look: Lookup, written: bool)
    | Peek(look: Lookup)
    | DlrLoad(handler: nat, msg: nat, report: Report, look: Lookup)
    | DlrCheck(handler: nat)
    | DlrEffect(handler: nat, written: bool)
    | MoLoad(handler: nat, msg: nat, look: Lookup)
    | MoEffect(handler: nat, answer: Answer, written: bool)

  /** Rows the durable table can show: the initial one, or one of a change
      already emitted, flushed or not. */
  ghost predicate Durable(w: World, row: CardState) {
    || (row.status == Pending && row.transition == 0)
    || exists e :: e in w.changes && row == CardState(e.step, e.status, e.retry, e.transition)
  }

  ghost predicate Found(w: World, look: Lookup) {
    match look
    case Hit => w.cache.Some?
    case Miss(id, row) => id in w.misses && Durable(w, row)
  }

  /** What the environment may do: per message at most one report and one
      answer, and never both an answer and a failing report. */
  ghost predicate Enabled(w: World, s: Step) {
    match s
    case Activate(_) => w.acts != []
    case WriteState(i, _) => i < |w.writes| && w.writes[i].obj < |w.objs|
    case Throttle => w.acts != []
    case Absent(id) => w.cache.None? && id !in w.misses
    case Overflow(look, _) => w.acts != [] && Found(w, look)
    case Peek(look) => Found(w, look)
    case DlrLoad(h, m, report, look) =>
      && h !in w.handlers && m < |w.msgs| && w.msgs[m].dlr.None? && (report.Decides() ==> !w.msgs[m].mo)
      && Found(w, look)
    case DlrCheck(h) =>
      h in w.handlers && w.handlers[h].DlrHandler? && !w.handlers[h].passed && w.handlers[h].obj < |w.objs|
    case DlrEffect(h, _) =>
      h in w.handlers && w.handlers[h].DlrHandler? && w.handlers[h].passed && w.handlers[h].obj < |w.objs|
    case MoLoad(h, m, look) =>
      h !in w.handlers && m < |w.msgs| && w.msgs[m].Undecided() && Found(w, look)
    case MoEffect(h, _, _) => h in w.handlers && w.handlers[h].MoHandler? && w.handlers[h].obj < |w.objs|
  }

  /** The end of GetCardState: the cached object, or a new one built from the row
      and cached. */
  function Fetch(w: World, look: Lookup): (r: (World, nat))
    requires look.Hit? ==> w.cache.Some?
  {
    match look
    case Hit => (w, w.cache.value)
    case Miss(id, row) =>
      (w.(objs := w.objs + [row], cache := Some(|w.objs|), misses := w.misses - {id}), |w.objs|)
  }

  function ObjectAt(w: World, i: nat): CardState {
    if i < |w.objs| then w.objs[i] else CardState(0, Unset, 0, 0)
  }

  function NewChange(c: Config, status: Status, step: int, retry: int, msg: Option<nat>,
                     at: nat, transition: int, from: Status): Change {
    Change(c.card, c.campaign, status, step, retry, msg, "", at, transition, from, status)
  }

  function Emit(w: World, e: Change, written: bool): World {
    if written then w.(changes := w.changes + [e]) else w
  }

  /** A terminal transition: the change goes out and the cache entry goes away. */
  function Finish(c: Config, w: World, obj: nat, status: Status, retry: int, from: Status, how: End, written: bool): World
    requires obj < |w.objs|
  {
    var o := w.objs[obj].(transition := w.objs[obj].transition + 1);
    Emit(w.(objs := w.objs[obj := o], cache := None, clock := w.clock + 1, end := Some(how)),
         NewChange(c, status, 0, retry, None, w.clock, o.transition, from), written)
  }

  function AdvanceOrComplete(c: Config, w: World, obj: nat, step: int, written: bool): World
    requires obj < |w.objs|
  {
    var next := ScanNext(c.commands, step);
    if next == -1 then Finish(c, w, obj, Completed, 0, InProgress, Accomplished, written)
    else w.(acts := w.acts + [Act(next, 0)])
  }

  function ActivateStep(c: Config, w: World, fate: Fate): World
    requires w.acts != []
  {
    var a, w0 := w.acts[0], w.(acts := w.acts[1..]);
    if fate.Dropped? || CommandAt(c.commands, a.step).None? then w0
    else
      var w1 := w0.(objs := w.objs + [CardState(a.step, AwaitingDlr, a.retry, 1)], cache := Some(|w.objs|));
      if fate.StateOnly? then w1
      else w1.(msgs := w.msgs + [Msg(None, false)], sent := w.sent + [a], clock := w.clock + 1,
               writes := w.writes + [Write(|w.objs|, a.step, a.retry, |w.msgs|, w.clock)])
  }

  function WriteStep(c: Config, w: World, i: nat, written: bool): World
    requires i < |w.writes| && w.writes[i].obj < |w.objs|
  {
    var x := w.writes[i];
    Emit(w.(writes := w.writes[..i] + w.writes[i + 1..]),
         NewChange(c, InProgress, x.step, x.retry, Some(x.msg), x.at, w.objs[x.obj].transition, Pending), written)
  }

  function OverflowStep(c: Config, w: World, look: Lookup, written: bool): World
    requires w.acts != [] && (look.Hit? ==> w.cache.Some?)
  {
    var (w1, o) := Fetch(w.(acts := w.acts[1..]), look);
    if o >= |w1.objs| || w1.objs[o].status.Terminal() then w1
    else Finish(c, w1, o, Failed, 0, InProgress, Overflowed, written)
  }

  function RetryOrFail(c: Config, w: World, obj: nat, written: bool): World
    requires obj < |w.objs|
  {
    var o := w.objs[obj];
    if o.retry + 1 < c.maxRetries then w.(acts := w.acts + [Act(o.step, o.retry + 1)])
    else Finish(c, w, obj, Failed, o.retry + 1, InProgress, Exhausted, written)
  }

  /** Whether the report still finds its object awaiting one. */
  function DlrCheckStep(w: World, h: nat): World
    requires h in w.handlers && w.handlers[h].DlrHandler? && w.handlers[h].obj < |w.objs|
  {
    if Awaiting(w.objs[w.handlers[h].obj].status) then
      w.(handlers := w.handlers[h := w.handlers[h].(passed := true)])
    else w.(handlers := w.handlers - {h})
  }

  function DlrEffectStep(c: Config, w: World, h: nat, written: bool): World
    requires h in w.handlers && w.handlers[h].DlrHandler? && w.handlers[h].obj < |w.objs|
  {
    var obj, w0 := w.handlers[h].obj, w.(handlers := w.handlers - {h});
    var o := w.objs[obj];
    match w.handlers[h].report
    case Unrecognised => w0
    case Delivered =>
      var cmd := CommandAt(c.commands, o.step);
      if cmd.Some? && cmd.value.expectResponse then
        w0.(objs := w.objs[obj := o.(status := AwaitingMo, transition := o.transition + 1)], cache := Some(obj))
      else AdvanceOrComplete(c, w0, obj, 0, written)  // the report's own step, never set
    case Partial => Finish(c, w0, obj, Failed, 0, Pending, PartSubmitted, written)
    case Failing => RetryOrFail(c, w0, obj, written)
  }

  function MoEffectStep(c: Config, w: World, h: nat, answer: Answer, written: bool): World
    requires h in w.handlers && w.handlers[h].MoHandler? && w.handlers[h].obj < |w.objs|
  {
    var obj, w0 := w.handlers[h].obj, w.(handlers := w.handlers - {h});
    var o := w.objs[obj];
    if CommandAt(c.commands, o.step).None? || answer.Unreadable? then w0
    else if answer.Accepted? then AdvanceOrComplete(c, w0, obj, o.step, written)
    else Finish(c, w0, obj, Failed, 0, InProgress, Declined, written)
  }

  /** Statuses in which a report moves the card. */
  predicate Awaiting(s: Status) {
    s.AwaitingDlr? || s.InProgress?
  }

  predicate DlrAccepted(s: Status) {
    s.AwaitingDlr? || s.InProgress? || s.AwaitingMo?
  }

  predicate MoAccepted(s: Status) {
    s.AwaitingMo? || s.AwaitingDlr?
  }

  function Next(c: Config, w: World, s: Step): World
    requires Enabled(w, s)
  {
    match s
    case Activate(fate) => ActivateStep(c, w, fate)
    case WriteState(i, written) => WriteStep(c, w, i, written)
    case Throttle => w.(acts := w.acts[1..] + [w.acts[0]])
    case Absent(id) => w.(misses := w.misses + {id})
    case Overflow(look, written) => OverflowStep(c, w, look, written)
    case Peek(look) => Fetch(w, look).0
    case DlrLoad(h, m, report, look) =>
      var (w1, o) := Fetch(w.(msgs := w.msgs[m := w.msgs[m].(dlr := Some(report))]), look);
      if DlrAccepted(ObjectAt(w1, o).status) then w1.(handlers := w1.handlers[h := DlrHandler(o, report, false)]) else w1
    case DlrCheck(h) => DlrCheckStep(w, h)
    case DlrEffect(h, written) => DlrEffectStep(c, w, h, written)
    case MoLoad(h, m, look) =>
      var (w1, o) := Fetch(w.(msgs := w.msgs[m := w.msgs[m].(mo := true)]), look);
      if MoAccepted(ObjectAt(w1, o).status) then w1.(handlers := w1.handlers[h := MoHandler(o)]) else w1
    case MoEffect(h, answer, written) => MoEffectStep(c, w, h, answer, written)
  }

  ghost function Exec(c: Config, w: World, steps: seq<Step>): Option<World>
    decreases |steps|
  {
    if steps == [] then Some(w)
    else if !Enabled(w, steps[0]) then None
    else Exec(c, Next(c, w, steps[0]), steps[1..])
  }

  // -------------------------------------------------------------- building runs

  ghost predicate Reaches(c: Config, w: World, steps: seq<Step>, end: World) {
    Exec(c, w, steps) == Some(end)
  }

  lemma ReachesStep(c: Config, w: World, s: Step, steps: seq<Step>, end: World)
    requires Enabled(w, s) && Reaches(c, Next(c, w, s), steps, end)
    ensures Reaches(c, w, [s] + steps, end)
  {
    assert ([s] + steps)[1..] == steps;
  }

  lemma {:induction false} ReachesThen(c: Config, w: World, a: seq<Step>, mid: World, b: seq<Step>, end: World)
    requires Reaches(c, w, a, mid) && Reaches(c, mid, b, end)
    ensures Reaches(c, w, a + b, end)
    decreases |a|
  {
    if a == [] {
      assert a + b == b;
    } else {
      ReachesThen(c, Next(c, w, a[0]), a[1..], mid, b, end);
      assert (a + b)[1..] == a[1..] + b;
    }
  }
}
