/** Every interleaving of submissions, failures, receipts and expiry through
    the gateway, and the events a message causes. */
module GatewayRuns {
  import opened Common
  import opened Gateway

  /** Progress of one HandleSendSMS call. */
  datatype Send = Send(total: nat, submitted: nat, failed: bool)

  /** How far the handling of a receipt has come: its correlation was loaded, or
      deleted and found in time, or its message's state was found. */
  datatype Stage = Loaded(entry: Option<Correlation>) | Looking(msg: MsgId) | Holding(msg: MsgId)

  datatype Receipt = Receipt(id: SmscId, status: DlrStatus, stage: Stage) {
    /** The message the receipt is known to be for. */
    function Names(): Option<MsgId> {
      match stage
      case Loaded(entry) => if entry.Some? then Some(entry.value.msg) else None
      case Looking(m) => Some(m)
      case Holding(m) => Some(m)
    }
  }

  /** A receipt that was counted for a message, on the message's state if that
      was found. */
  datatype Settled = Settled(msg: MsgId, id: SmscId, status: DlrStatus, found: bool)

  /** Tables plus the calls in flight.  `gone` are the states deleted from the
      table, which handlers may still hold.  `stored` and `settled` are history:
      which identifier was ever given to which message, and the receipts that
      were counted, in order. */
  datatype World = World(
    tables: Tables, gone: map<MsgId, Multipart>, sends: map<MsgId, Send>, inHand: map<nat, Receipt>,
    stored: map<SmscId, MsgId>, settled: seq<Settled>)

  const START := World(Tables(map[], map[], []), map[], map[], map[], map[], [])

  /** A receipt takes up to four steps: its correlation is loaded, then deleted
      (`late` if the deadline has passed by then), the message's state is looked
      up, and counted on under its lock.  Any number of receipts may stand at any
      of them.  Sending the event is a handler's last act, so a handler that has
      only that left to do is taken to have done it. */
  datatype Step =
    | Begin(msg: MsgId, total: nat)
    | Accept(msg: MsgId, id: SmscId)
    | Refuse(msg: MsgId)
    | Load(worker: nat, id: SmscId, status: DlrStatus)
    | Drop(worker: nat, late: bool)
    | Find(worker: nat)
    | Count(worker: nat)
    | Expire(id: SmscId)
    | Cleanup

  predicate Submitting(w: World, m: MsgId) {
    m in w.sends && !w.sends[m].failed && w.sends[m].submitted < w.sends[m].total
  }

  /** A message is sent once and the SMSC never gives out an identifier twice.
      The state a handler holds exists, in the table or not. */
  predicate Enabled(w: World, s: Step) {
    match s
    case Begin(m, _) => m !in w.sends
    case Accept(m, id) => Submitting(w, m) && id !in w.stored
    case Refuse(m) => Submitting(w, m)
    case Load(worker, _, _) => worker !in w.inHand
    case Drop(worker, _) => worker in w.inHand && w.inHand[worker].stage.Loaded?
    case Find(worker) => worker in w.inHand && w.inHand[worker].stage.Looking?
    case Count(worker) =>
      worker in w.inHand && w.inHand[worker].stage.Holding? && StateOf(w, w.inHand[worker].stage.msg).Some?
    case Expire(_) => true
    case Cleanup => true
  }

  function At<K, V>(m: map<K, V>, k: K): Option<V> {
    if k in m then Some(m[k]) else None
  }

  /** The state of m, in the table or out of it. */
  function StateOf(w: World, m: MsgId): Option<Multipart> {
    if m in w.tables.multipart then Some(w.tables.multipart[m]) else At(w.gone, m)
  }

  function Emit(t: Tables, m: MsgId, status: DlrStatus): Tables {
    t.(events := t.events + [Event(m, status)])
  }

  /** The receipt is counted; its handler is done. */
  function Done(w: World, worker: nat, m: MsgId, found: bool): World
    requires worker in w.inHand
  {
    var r := w.inHand[worker];
    w.(inHand := w.inHand - {worker}, settled := w.settled + [Settled(m, r.id, r.status, found)])
  }

  /** Deleting the correlation, with the check of its deadline. */
  function Dropped(w: World, worker: nat, late: bool): World
    requires Enabled(w, Drop(worker, late))
  {
    var r := w.inHand[worker];
    match r.stage.entry
    case None => w.(inHand := w.inHand - {worker})
    case Some(c) =>
      w.(tables := w.tables.(correlations := w.tables.correlations - {r.id}),
         inHand := if c.expired || late then w.inHand - {worker} else w.inHand[worker := r.(stage := Looking(c.msg))])
  }

  /** Looking up the message's state; without one the receipt speaks for itself. */
  function Looked(w: World, worker: nat): World
    requires Enabled(w, Find(worker))
  {
    var r := w.inHand[worker];
    var m := r.stage.msg;
    if m in w.tables.multipart then w.(inHand := w.inHand[worker := r.(stage := Holding(m))])
    else Done(w, worker, m, false).(tables := Emit(w.tables, m, r.status))
  }

  /** Counting on the state held, whether or not the table still has it. */
  function Counted(w: World, worker: nat): World
    requires Enabled(w, Count(worker))
  {
    var r := w.inHand[worker];
    var m := r.stage.msg;
    var p := CountPart(StateOf(w, m).value, r.status == Delivrd);
    var w' := Done(w, worker, m, true);
    if p.resolved >= p.total then
      w'.(tables := Emit(w.tables.(multipart := w.tables.multipart - {m}), m, Aggregate(p.anyFailed)), gone := w.gone[m := p])
    else if m in w.tables.multipart then w'.(tables := w.tables.(multipart := w.tables.multipart[m := p]))
    else w'.(gone := w.gone[m := p])
  }

  function Next(w: World, s: Step): World
    requires Enabled(w, s)
  {
    match s
    case Begin(m, total) =>
      w.(tables := TrackParts(w.tables, m, total), sends := w.sends[m := Send(total, 0, false)])
    case Accept(m, id) =>
      w.(tables := Correlate(w.tables, m, id),
         sends := w.sends[m := w.sends[m].(submitted := w.sends[m].submitted + 1)],
         stored := w.stored[id := m])
    case Refuse(m) =>
      w.(tables := SubmitFailure(w.tables, m, w.sends[m].submitted),
         sends := w.sends[m := w.sends[m].(failed := true)])
    case Load(worker, id, status) =>
      w.(inHand := w.inHand[worker := Receipt(id, status, Loaded(Lookup(w.tables, id)))])
    case Drop(worker, late) => Dropped(w, worker, late)
    case Find(worker) => Looked(w, worker)
    case Count(worker) => Counted(w, worker)
    case Expire(id) =>
      if id !in w.tables.correlations then w
      else w.(tables := w.tables.(correlations :=
                w.tables.correlations[id := w.tables.correlations[id].(expired := true)]))
    case Cleanup =>
      w.(tables := Sweep(w.tables))
  }

  /** The world after a run, if each of its steps is possible. */
  function Exec(w: World, steps: seq<Step>): Option<World>
    decreases |steps|
  {
    if steps == [] then Some(w)
    else if !Enabled(w, steps[0]) then None
    else Exec(Next(w, steps[0]), steps[1..])
  }

  // ---------------------------------------------- what a message's receipts cause

  function EventsOf(events: seq<Event>, m: MsgId): seq<DlrStatus> {
    if events == [] then []
    else
      var e := events[|events| - 1];
      EventsOf(events[..|events| - 1], m) + if e.msg == m then [e.status] else []
  }

  /** The receipts counted for m, in order. */
  function SettledOf(settled: seq<Settled>, m: MsgId): seq<Settled> {
    if settled == [] then []
    else
      var e := settled[|settled| - 1];
      SettledOf(settled[..|settled| - 1], m) + if e.msg == m then [e] else []
  }

  /** Those of them that found the message's state. */
  function Found(rs: seq<Settled>): seq<Settled> {
    if rs == [] then []
    else Found(rs[..|rs| - 1]) + if rs[|rs| - 1].found then [rs[|rs| - 1]] else []
  }

  predicate AllDelivered(rs: seq<Settled>) {
    forall i :: 0 <= i < |rs| ==> rs[i].status == Delivrd
  }

  /** What the receipt `last` makes the card hear, after `past`: its own status if
      it missed the state, else nothing until the last awaited receipt, then the
      aggregate of all that found the state so far, itself included. */
  function Report(past: seq<Settled>, last: Settled, total: nat): seq<DlrStatus> {
    if !last.found then [last.status]
    else if |Found(past)| + 1 < total then []
    else [Aggregate(!(AllDelivered(Found(past)) && last.status == Delivrd))]
  }

  /** The events of the receipts rs of a message with `total` parts. */
  function Caused(rs: seq<Settled>, total: nat): seq<DlrStatus> {
    if rs == [] then []
    else Caused(rs[..|rs| - 1], total) + Report(rs[..|rs| - 1], rs[|rs| - 1], total)
  }

  /** The event of m's own submission. */
  function Failure(s: Send): multiset<DlrStatus> {
    if s.failed then multiset{if s.submitted > 0 then FailedPartialSubmit else FailedSubmit} else multiset{}
  }

  // ----------------------------------------------------------------- invariant

  /** Only a message with several parts has a state, and as long as parts are
      awaited every receipt finds it. */
  predicate Proper(rs: seq<Settled>, total: nat) {
    rs == [] ||
    (Proper(rs[..|rs| - 1], total) &&
     if total > 1 then |Found(rs[..|rs| - 1])| < total ==> rs[|rs| - 1].found else !rs[|rs| - 1].found)
  }

  /** The state that the receipts rs leave. */
  function StateAfter(rs: seq<Settled>, total: nat): Multipart {
    Multipart(total, |Found(rs)|, !AllDelivered(Found(rs)))
  }

  /** All that concerns one message. */
  datatype Account = Account(
    send: Option<Send>, open: Option<Multipart>, closed: Option<Multipart>,
    receipts: seq<Settled>, events: seq<DlrStatus>)

  function AccountOf(w: World, m: MsgId): Account {
    Account(At(w.sends, m), At(w.tables.multipart, m), At(w.gone, m),
            SettledOf(w.settled, m), EventsOf(w.tables.events, m))
  }

  ghost predicate SendOk(s: Send, a: Account) {
    && s.submitted <= s.total && (s.failed ==> s.submitted < s.total)
    && (a.receipts != [] ==> s.total > 0)
    && Proper(a.receipts, s.total)
    && a.open == (if s.total > 1 && |Found(a.receipts)| < s.total then Some(StateAfter(a.receipts, s.total)) else None)
    && a.closed == (if s.total > 1 && |Found(a.receipts)| >= s.total then Some(StateAfter(a.receipts, s.total)) else None)
    && multiset(a.events) == multiset(Caused(a.receipts, s.total)) + Failure(s)
  }

  ghost predicate Kept(a: Account) {
    if a.send.Some? then SendOk(a.send.value, a) else a == Account(None, None, None, [], [])
  }

  /** Correlations, loaded or stored, name messages with parts; only the state of
      a message with several parts is held. */
  ghost predicate Known(w: World, m: MsgId) {
    m in w.sends && w.sends[m].total > 0
  }

  ghost predicate HandOk(w: World, r: Receipt) {
    && (r.Names().Some? ==> Known(w, r.Names().value))
    && (r.stage.Holding? ==> w.sends[r.stage.msg].total > 1)
  }

  ghost predicate TablesOk(w: World) {
    && (forall id :: id in w.tables.correlations ==> Known(w, w.tables.correlations[id].msg))
    && (forall v :: v in w.inHand ==> HandOk(w, w.inHand[v]))
  }

  ghost predicate Inv(w: World) {
    TablesOk(w) && forall m :: Kept(AccountOf(w, m))
  }

  lemma EventsAppend(events: seq<Event>, e: Event, m: MsgId)
    ensures EventsOf(events + [e], m) == EventsOf(events, m) + if e.msg == m then [e.status] else []
  {
    assert (events + [e])[..|events|] == events;
  }

  lemma SettledAppend(settled: seq<Settled>, e: Settled, m: MsgId)
    ensures SettledOf(settled + [e], m) == SettledOf(settled, m) + if e.msg == m then [e] else []
  {
    assert (settled + [e])[..|settled|] == settled;
  }

  /** One more receipt. */
  lemma ReceiptsMore(rs: seq<Settled>, x: Settled, total: nat)
    ensures Found(rs + [x]) == Found(rs) + if x.found then [x] else []
    ensures Caused(rs + [x], total) == Caused(rs, total) + Report(rs, x, total)
    ensures Proper(rs + [x], total) <==>
            Proper(rs, total) && if total > 1 then |Found(rs)| < total ==> x.found else !x.found
  {
    assert (rs + [x])[..|rs|] == rs;
  }

  lemma AllDeliveredMore(rs: seq<Settled>, x: Settled)
    ensures AllDelivered(rs + [x]) <==> AllDelivered(rs) && x.status == Delivrd
  {
    assert (rs + [x])[|rs|] == x;
    assert forall i :: 0 <= i < |rs| ==> (rs + [x])[i] == rs[i];
  }

  // -------------------------------------------------------- steps on an account

  lemma BeginAccount(w: World, m: MsgId, total: nat)
    requires Kept(AccountOf(w, m)) && Enabled(w, Begin(m, total))
    ensures Kept(AccountOf(Next(w, Begin(m, total)), m))
  {
    assert AccountOf(w, m) == Account(None, None, None, [], []);
    assert AccountOf(Next(w, Begin(m, total)), m) ==
           Account(Some(Send(total, 0, false)), if total > 1 then Some(Multipart(total, 0, false)) else None, None, [], []);
  }

  lemma RefuseKept(a: Account, b: Account)
    requires Kept(a) && a.send.Some? && !a.send.value.failed && a.send.value.submitted < a.send.value.total
    requires b == a.(send := Some(a.send.value.(failed := true)),
                     events := a.events + [if a.send.value.submitted > 0 then FailedPartialSubmit else FailedSubmit])
    ensures Kept(b)
  {
  }

  lemma RefuseAccount(w: World, m: MsgId)
    requires Kept(AccountOf(w, m)) && Enabled(w, Refuse(m))
    ensures Kept(AccountOf(Next(w, Refuse(m)), m))
  {
    var e := Event(m, if w.sends[m].submitted > 0 then FailedPartialSubmit else FailedSubmit);
    EventsAppend(w.tables.events, e, m);
    RefuseKept(AccountOf(w, m), AccountOf(Next(w, Refuse(m)), m));
  }

  lemma OneMoreEach(a: seq<DlrStatus>, b: seq<DlrStatus>, rest: multiset<DlrStatus>, x: seq<DlrStatus>)
    requires multiset(a) == multiset(b) + rest
    ensures multiset(a + x) == multiset(b + x) + rest
  {
  }

  /** A receipt that finds no state. */
  lemma MissKept(a: Account, x: Settled, b: Account)
    requires Kept(a) && a.send.Some? && a.send.value.total > 0 && a.open.None? && !x.found
    requires b == a.(receipts := a.receipts + [x], events := a.events + [x.status])
    ensures Kept(b)
  {
    var s, rs := a.send.value, a.receipts;
    ReceiptsMore(rs, x, s.total);
    OneMoreEach(a.events, Caused(rs, s.total), Failure(s), [x.status]);
    assert Found(rs + [x]) == Found(rs);
    assert SendOk(s, b);
  }

  /** A receipt that found the state, wherever that is by now. */
  lemma CountState(rs: seq<Settled>, x: Settled, total: nat)
    requires x.found && total > 1
    ensures StateAfter(rs + [x], total) == CountPart(StateAfter(rs, total), x.status == Delivrd)
    ensures Report(rs, x, total) ==
            var p := StateAfter(rs + [x], total);
            if p.resolved >= p.total then [Aggregate(p.anyFailed)] else []
  {
    ReceiptsMore(rs, x, total);
    AllDeliveredMore(Found(rs), x);
  }

  /** The account after counting: the state p, with its event if it is complete. */
  function AccountCounted(a: Account, x: Settled, p: Multipart): Account {
    if p.resolved >= p.total then
      a.(open := None, closed := Some(p), receipts := a.receipts + [x], events := a.events + [Aggregate(p.anyFailed)])
    else
      a.(open := Some(p), receipts := a.receipts + [x])
  }

  lemma CountKept(a: Account, x: Settled)
    requires Kept(a) && a.send.Some? && a.send.value.total > 1 && x.found
    ensures a.open.Some? || a.closed.Some?
    ensures var state := if a.open.Some? then a.open.value else a.closed.value;
            var p := CountPart(state, x.status == Delivrd);
            (a.open.None? ==> p.resolved >= p.total) && Kept(AccountCounted(a, x, p))
  {
    var s, rs := a.send.value, a.receipts;
    CountState(rs, x, s.total);
    CountedOk(s, a, x, StateAfter(rs + [x], s.total));
  }

  lemma CountedOk(s: Send, a: Account, x: Settled, p: Multipart)
    requires SendOk(s, a) && s.total > 1 && x.found && p == StateAfter(a.receipts + [x], s.total)
    requires Report(a.receipts, x, s.total) == if p.resolved >= p.total then [Aggregate(p.anyFailed)] else []
    ensures SendOk(s, AccountCounted(a, x, p))
  {
    ReceiptsMore(a.receipts, x, s.total);
    OneMoreEach(a.events, Caused(a.receipts, s.total), Failure(s), Report(a.receipts, x, s.total));
    assert a.events + [] == a.events;
  }

  /** Steps that leave an account as it was keep it. */
  lemma OthersKept(w: World, w': World, m: MsgId)
    requires Inv(w)
    requires forall n :: n != m ==> AccountOf(w', n) == AccountOf(w, n)
    requires Kept(AccountOf(w', m)) && TablesOk(w')
    ensures Inv(w')
  {
    forall n ensures Kept(AccountOf(w', n)) {
      assert Kept(AccountOf(w, n));
    }
  }

  lemma BeginKeeps(w: World, m: MsgId, total: nat)
    requires Inv(w) && Enabled(w, Begin(m, total))
    ensures Inv(Next(w, Begin(m, total)))
  {
    var w' := Next(w, Begin(m, total));
    assert Kept(AccountOf(w, m));
    BeginAccount(w, m, total);
    forall v | v in w'.inHand ensures HandOk(w', w'.inHand[v]) {
      assert HandOk(w, w.inHand[v]);
    }
    OthersKept(w, w', m);
  }

  /** Another submitted part, or none: what a message has to receive stays. */
  lemma SameHands(w: World, w': World)
    requires TablesOk(w) && w'.inHand == w.inHand && w'.sends.Keys == w.sends.Keys
    requires forall m :: m in w.sends ==> w'.sends[m].total == w.sends[m].total
    ensures forall v :: v in w'.inHand ==> HandOk(w', w'.inHand[v])
  {
    forall v | v in w'.inHand ensures HandOk(w', w'.inHand[v]) {
      assert HandOk(w, w.inHand[v]);
    }
  }

  lemma AcceptKept(a: Account)
    requires Kept(a) && a.send.Some? && !a.send.value.failed && a.send.value.submitted < a.send.value.total
    ensures Kept(a.(send := Some(a.send.value.(submitted := a.send.value.submitted + 1))))
  {
  }

  lemma AcceptTables(w: World, m: MsgId, id: SmscId)
    requires TablesOk(w) && Enabled(w, Accept(m, id))
    ensures TablesOk(Next(w, Accept(m, id)))
  {
    SameHands(w, Next(w, Accept(m, id)));
  }

  lemma AcceptAccounts(w: World, m: MsgId, id: SmscId, n: MsgId)
    requires Enabled(w, Accept(m, id))
    ensures var a, s := AccountOf(w, n), w.sends[m];
            AccountOf(Next(w, Accept(m, id)), n) ==
              if n == m then a.(send := Some(s.(submitted := s.submitted + 1))) else a
  {
  }

  lemma AcceptKeeps(w: World, m: MsgId, id: SmscId)
    requires Inv(w) && Enabled(w, Accept(m, id))
    ensures Inv(Next(w, Accept(m, id)))
  {
    var w' := Next(w, Accept(m, id));
    assert Kept(AccountOf(w, m));
    AcceptKept(AccountOf(w, m));
    AcceptTables(w, m, id);
    forall n ensures n != m ==> AccountOf(w', n) == AccountOf(w, n) {
      AcceptAccounts(w, m, id, n);
    }
    AcceptAccounts(w, m, id, m);
    OthersKept(w, w', m);
  }

  lemma RefuseOthers(w: World, m: MsgId, n: MsgId)
    requires Enabled(w, Refuse(m)) && n != m
    ensures AccountOf(Next(w, Refuse(m)), n) == AccountOf(w, n)
  {
    EventsAppend(w.tables.events, Next(w, Refuse(m)).tables.events[|w.tables.events|], n);
  }

  lemma RefuseTables(w: World, m: MsgId)
    requires TablesOk(w) && Enabled(w, Refuse(m))
    ensures TablesOk(Next(w, Refuse(m)))
  {
    SameHands(w, Next(w, Refuse(m)));
  }

  lemma RefuseKeeps(w: World, m: MsgId)
    requires Inv(w) && Enabled(w, Refuse(m))
    ensures Inv(Next(w, Refuse(m)))
  {
    var w' := Next(w, Refuse(m));
    assert Kept(AccountOf(w, m));
    RefuseAccount(w, m);
    forall n | n != m ensures AccountOf(w', n) == AccountOf(w, n) {
      RefuseOthers(w, m, n);
    }
    RefuseTables(w, m);
    OthersKept(w, w', m);
  }

  /** Steps that touch no account. */
  lemma QuietKeeps(w: World, w': World)
    requires Inv(w) && TablesOk(w')
    requires w'.sends == w.sends && w'.settled == w.settled && w'.gone == w.gone
    requires w'.tables.multipart == w.tables.multipart && w'.tables.events == w.tables.events
    ensures Inv(w')
  {
    forall m ensures Kept(AccountOf(w', m)) {
      assert Kept(AccountOf(w, m));
    }
  }

  /** Handlers at work after a step of one of them, nothing new being submitted. */
  lemma WorkerTables(w: World, w': World, worker: nat)
    requires TablesOk(w) && w'.sends == w.sends
    requires forall id :: id in w'.tables.correlations ==>
               id in w.tables.correlations && w'.tables.correlations[id].msg == w.tables.correlations[id].msg
    requires forall v :: v in w'.inHand && v != worker ==> v in w.inHand && w'.inHand[v] == w.inHand[v]
    requires worker in w'.inHand ==> HandOk(w, w'.inHand[worker])
    ensures TablesOk(w')
  {
    forall v | v in w'.inHand ensures HandOk(w', w'.inHand[v]) {
      assert v != worker ==> HandOk(w, w.inHand[v]);
    }
  }

  lemma LoadKeeps(w: World, s: Step)
    requires Inv(w) && s.Load? && Enabled(w, s)
    ensures Inv(Next(w, s))
  {
    WorkerTables(w, Next(w, s), s.worker);
    QuietKeeps(w, Next(w, s));
  }

  lemma DropKeeps(w: World, worker: nat, late: bool)
    requires Inv(w) && Enabled(w, Drop(worker, late))
    ensures Inv(Next(w, Drop(worker, late)))
  {
    var w' := Next(w, Drop(worker, late));
    assert HandOk(w, w.inHand[worker]);
    WorkerTables(w, w', worker);
    QuietKeeps(w, w');
  }

  /** A state in the table is that of a message with several parts. */
  lemma OpenMeansParts(w: World, m: MsgId)
    requires Kept(AccountOf(w, m)) && m in w.tables.multipart
    ensures m in w.sends && w.sends[m].total > 1
  {
    assert AccountOf(w, m).open.Some?;
  }

  lemma MissAccount(w: World, worker: nat)
    requires Enabled(w, Find(worker)) && w.inHand[worker].stage.msg !in w.tables.multipart
    ensures var r := w.inHand[worker];
            var m := r.stage.msg;
            var a, x := AccountOf(w, m), Settled(m, r.id, r.status, false);
            AccountOf(Next(w, Find(worker)), m) == a.(receipts := a.receipts + [x], events := a.events + [x.status])
  {
    var r := w.inHand[worker];
    EventsAppend(w.tables.events, Event(r.stage.msg, r.status), r.stage.msg);
    SettledAppend(w.settled, Settled(r.stage.msg, r.id, r.status, false), r.stage.msg);
  }

  lemma MissOthers(w: World, worker: nat, n: MsgId)
    requires Enabled(w, Find(worker)) && w.inHand[worker].stage.msg !in w.tables.multipart
    requires n != w.inHand[worker].stage.msg
    ensures AccountOf(Next(w, Find(worker)), n) == AccountOf(w, n)
  {
    var r := w.inHand[worker];
    EventsAppend(w.tables.events, Event(r.stage.msg, r.status), n);
    SettledAppend(w.settled, Settled(r.stage.msg, r.id, r.status, false), n);
  }

  lemma MissTarget(w: World, worker: nat)
    requires Inv(w) && Enabled(w, Find(worker)) && w.inHand[worker].stage.msg !in w.tables.multipart
    ensures Kept(AccountOf(Next(w, Find(worker)), w.inHand[worker].stage.msg))
  {
    var r := w.inHand[worker];
    var m := r.stage.msg;
    assert HandOk(w, r);
    assert Kept(AccountOf(w, m));
    MissAccount(w, worker);
    MissKept(AccountOf(w, m), Settled(m, r.id, r.status, false), AccountOf(Next(w, Find(worker)), m));
  }

  lemma MissKeeps(w: World, worker: nat)
    requires Inv(w) && Enabled(w, Find(worker)) && w.inHand[worker].stage.msg !in w.tables.multipart
    ensures Inv(Next(w, Find(worker)))
  {
    var w', m := Next(w, Find(worker)), w.inHand[worker].stage.msg;
    MissTarget(w, worker);
    forall n | n != m ensures AccountOf(w', n) == AccountOf(w, n) {
      MissOthers(w, worker, n);
    }
    WorkerTables(w, w', worker);
    OthersKept(w, w', m);
  }

  lemma HoldKeeps(w: World, worker: nat)
    requires Inv(w) && Enabled(w, Find(worker)) && w.inHand[worker].stage.msg in w.tables.multipart
    ensures Inv(Next(w, Find(worker)))
  {
    var m := w.inHand[worker].stage.msg;
    assert Kept(AccountOf(w, m));
    OpenMeansParts(w, m);
    WorkerTables(w, Next(w, Find(worker)), worker);
    QuietKeeps(w, Next(w, Find(worker)));
  }

  lemma FindKeeps(w: World, worker: nat)
    requires Inv(w) && Enabled(w, Find(worker))
    ensures Inv(Next(w, Find(worker)))
  {
    if w.inHand[worker].stage.msg in w.tables.multipart {
      HoldKeeps(w, worker);
    } else {
      MissKeeps(w, worker);
    }
  }

  /** What counting changes is of the one message. */
  lemma CountApart(w: World, worker: nat, n: MsgId)
    requires Enabled(w, Count(worker)) && n != w.inHand[worker].stage.msg
    ensures var w', r := Next(w, Count(worker)), w.inHand[worker];
            && At(w'.tables.multipart, n) == At(w.tables.multipart, n) && At(w'.gone, n) == At(w.gone, n)
            && w'.sends == w.sends && w'.settled == w.settled + [Settled(r.stage.msg, r.id, r.status, true)]
            && (w'.tables.events == w.tables.events ||
                exists x :: w'.tables.events == w.tables.events + [Event(r.stage.msg, x)])
  {
    var w', r := Next(w, Count(worker)), w.inHand[worker];
    var p := CountPart(StateOf(w, r.stage.msg).value, r.status == Delivrd);
    assert w'.tables.events == if p.resolved >= p.total then w.tables.events + [Event(r.stage.msg, Aggregate(p.anyFailed))]
                               else w.tables.events;
  }

  lemma CountOthers(w: World, worker: nat, n: MsgId)
    requires Enabled(w, Count(worker)) && n != w.inHand[worker].stage.msg
    ensures AccountOf(Next(w, Count(worker)), n) == AccountOf(w, n)
  {
    var events, r := Next(w, Count(worker)).tables.events, w.inHand[worker];
    CountApart(w, worker, n);
    SettledAppend(w.settled, Settled(r.stage.msg, r.id, r.status, true), n);
    if x :| events == w.tables.events + [Event(r.stage.msg, x)] {
      EventsAppend(w.tables.events, Event(r.stage.msg, x), n);
    }
  }

  lemma CountTarget(w: World, worker: nat)
    requires Enabled(w, Count(worker))
    ensures var r := w.inHand[worker];
            var m := r.stage.msg;
            var p := CountPart(StateOf(w, m).value, r.status == Delivrd);
            (m !in w.tables.multipart ==> p.resolved >= p.total) ==>
            AccountOf(Next(w, Count(worker)), m) == AccountCounted(AccountOf(w, m), Settled(m, r.id, r.status, true), p)
  {
    var r := w.inHand[worker];
    var m := r.stage.msg;
    var p := CountPart(StateOf(w, m).value, r.status == Delivrd);
    SettledAppend(w.settled, Settled(m, r.id, r.status, true), m);
    EventsAppend(w.tables.events, Event(m, Aggregate(p.anyFailed)), m);
  }

  lemma CountKeeps(w: World, worker: nat)
    requires Inv(w) && Enabled(w, Count(worker))
    ensures Inv(Next(w, Count(worker)))
  {
    var w', r := Next(w, Count(worker)), w.inHand[worker];
    var m := r.stage.msg;
    assert HandOk(w, r);
    assert Kept(AccountOf(w, m));
    CountKept(AccountOf(w, m), Settled(m, r.id, r.status, true));
    CountTarget(w, worker);
    forall n | n != m ensures AccountOf(w', n) == AccountOf(w, n) {
      CountOthers(w, worker, n);
    }
    WorkerTables(w, w', worker);
    OthersKept(w, w', m);
  }

  lemma NextKeeps(w: World, s: Step)
    requires Inv(w) && Enabled(w, s)
    ensures Inv(Next(w, s))
  {
    match s
    case Begin(m, total) => BeginKeeps(w, m, total);
    case Accept(m, id) => AcceptKeeps(w, m, id);
    case Refuse(m) => RefuseKeeps(w, m);
    case Load(_, _, _) => LoadKeeps(w, s);
    case Drop(worker, late) => DropKeeps(w, worker, late);
    case Find(worker) => FindKeeps(w, worker);
    case Count(worker) => CountKeeps(w, worker);
    case Expire(_) =>
      SameHands(w, Next(w, s));
      QuietKeeps(w, Next(w, s));
    case Cleanup =>
      SameHands(w, Next(w, s));
      QuietKeeps(w, Next(w, s));
  }

  lemma {:induction false} ExecKeeps(w: World, steps: seq<Step>)
    requires Inv(w) && Exec(w, steps).Some?
    ensures Inv(Exec(w, steps).value)
    decreases |steps|
  {
    if steps != [] {
      NextKeeps(w, steps[0]);
      ExecKeeps(Next(w, steps[0]), steps[1..]);
    }
  }

  /** A handler that holds a state can count on it. */
  lemma HeldExists(w: World, worker: nat)
    requires Inv(w) && worker in w.inHand && w.inHand[worker].stage.Holding?
    ensures Enabled(w, Count(worker))
  {
    var m := w.inHand[worker].stage.msg;
    assert HandOk(w, w.inHand[worker]);
    assert Kept(AccountOf(w, m));
  }

  // ---------------------------------------------------------- how correlations go

  /** The step is a handler's deletion of this correlation. */
  predicate Takes(w: World, s: Step, id: SmscId) {
    s.Drop? && s.worker in w.inHand && w.inHand[s.worker].id == id
  }

  /** A correlation in time stays, with its message, until its deadline passes or a
      receipt for it is handled. */
  lemma LiveStays(w: World, s: Step, id: SmscId)
    requires Enabled(w, s) && id in w.stored && Lookup(w.tables, id).Some? && !Lookup(w.tables, id).value.expired
    ensures var before, after := Lookup(w.tables, id).value, Lookup(Next(w, s).tables, id);
            || (Takes(w, s, id) && after.None?)
            || (after.Some? && after.value.msg == before.msg && (after.value.expired <==> s == Expire(id)))
            || (Takes(w, s, id) && after == Some(before))
  {
    match s
    case Cleanup => SweepExactly(w.tables, id);
    case _ =>
  }

  /** Over every run a part's correlation in time that has gone was taken by a
      receipt for it. */
  lemma {:induction false} LiveUntilTaken(w: World, steps: seq<Step>, id: SmscId)
    requires Exec(w, steps).Some? && id in w.stored && Lookup(w.tables, id).Some? && !Lookup(w.tables, id).value.expired
    requires forall i :: 0 <= i < |steps| ==> steps[i] != Expire(id)
    ensures Lookup(Exec(w, steps).value.tables, id) == Lookup(w.tables, id) || SomeTakes(w, steps, id)
    decreases |steps|
  {
    if steps != [] && !Takes(w, steps[0], id) {
      LiveStays(w, steps[0], id);
      StoredStays(w, steps[0], id);
      LiveUntilTaken(Next(w, steps[0]), steps[1..], id);
    }
  }

  lemma StoredStays(w: World, s: Step, id: SmscId)
    requires Enabled(w, s) && id in w.stored
    ensures id in Next(w, s).stored
  {
  }

  predicate SomeTakes(w: World, steps: seq<Step>, id: SmscId)
    requires Exec(w, steps).Some?
    decreases |steps|
  {
    steps != [] && (Takes(w, steps[0], id) || SomeTakes(Next(w, steps[0]), steps[1..], id))
  }

  /** A receipt goes on to be counted exactly if its correlation was there when it was
      loaded, and in time then and when it was deleted; no receipt causes an event, or
      is counted, by this. */
  lemma DropExactly(w: World, worker: nat, late: bool)
    requires Enabled(w, Drop(worker, late))
    ensures var w', r := Next(w, Drop(worker, late)), w.inHand[worker];
            && (worker in w'.inHand <==> r.stage.entry.Some? && !r.stage.entry.value.expired && !late)
            && (worker in w'.inHand ==> w'.inHand[worker] == Receipt(r.id, r.status, Looking(r.stage.entry.value.msg)))
            && (Lookup(w'.tables, r.id).Some? ==> r.stage.entry.None?)
            && w'.settled == w.settled && w'.tables.events == w.tables.events && w'.tables.multipart == w.tables.multipart
  {
  }

  // ------------------------------------------------------- one receipt by itself

  /** The steps of a receipt that nothing interrupts. */
  function Uninterrupted(w: World, worker: nat, id: SmscId, status: DlrStatus): seq<Step> {
    [Load(worker, id, status)] + ([Drop(worker, false)] +
      match Lookup(w.tables, id)
      case None => []
      case Some(c) =>
        if c.expired then [] else [Find(worker)] + if c.msg in w.tables.multipart then [Count(worker)] + [] else [])
  }

  lemma ExecStep(w: World, s: Step, rest: seq<Step>)
    requires Enabled(w, s)
    ensures Exec(w, [s] + rest) == Exec(Next(w, s), rest)
  {
    assert ([s] + rest)[1..] == rest;
  }

  /** From the deleted correlation on. */
  lemma SettledAlone(w: World, worker: nat)
    requires worker in w.inHand && w.inHand[worker].stage.Looking?
    ensures var r := w.inHand[worker];
            var m := r.stage.msg;
            var rest := [Find(worker)] + if m in w.tables.multipart then [Count(worker)] + [] else [];
            Exec(w, rest).Some? && Exec(w, rest).value.tables == Settle(w.tables, m, r.status)
  {
    var m := w.inHand[worker].stage.msg;
    var w1 := Next(w, Find(worker));
    if m in w.tables.multipart {
      ExecStep(w, Find(worker), [Count(worker)] + []);
      ExecStep(w1, Count(worker), []);
    } else {
      ExecStep(w, Find(worker), []);
    }
  }

  /** Uninterrupted, the steps do what the handler does in one call. */
  lemma HandledAlone(w: World, worker: nat, id: SmscId, status: DlrStatus)
    requires worker !in w.inHand
    ensures var end := Exec(w, Uninterrupted(w, worker, id, status));
            end.Some? && end.value.tables == FinishReceipt(w.tables, id, Lookup(w.tables, id), status)
  {
    var entry := Lookup(w.tables, id);
    var w1 := Next(w, Load(worker, id, status));
    var w2 := Next(w1, Drop(worker, false));
    var rest := Uninterrupted(w, worker, id, status)[2..];
    assert Uninterrupted(w, worker, id, status) == [Load(worker, id, status)] + ([Drop(worker, false)] + rest);
    ExecStep(w, Load(worker, id, status), [Drop(worker, false)] + rest);
    ExecStep(w1, Drop(worker, false), rest);
    if entry.Some? && !entry.value.expired {
      SettledAlone(w2, worker);
    } else {
      assert rest == [];
    }
  }

  // -------------------------------------------------------------- main results

  /** As long as parts are awaited, all receipts have found the state, and the
      first ones always have. */
  lemma {:induction false} FoundFirst(rs: seq<Settled>, total: nat)
    requires Proper(rs, total) && total > 1
    ensures |rs| <= total ==> Found(rs) == rs
    ensures |rs| >= total ==> |Found(rs)| >= total && Found(rs)[..total] == rs[..total]
  {
    if rs != [] {
      var past := rs[..|rs| - 1];
      FoundFirst(past, total);
      assert rs == past + [rs[|rs| - 1]];
      if |rs| == total {
        assert rs[..total] == rs && Found(rs)[..total] == Found(rs);
      } else if |rs| > total {
        assert past[..total] == rs[..total];
        assert Found(rs)[..total] == Found(past)[..total];
      }
    }
  }

  lemma {:induction false} CausedCount(rs: seq<Settled>, total: nat)
    requires Proper(rs, total) && total > 0
    ensures |Caused(rs, total)| == if |rs| < total then 0 else |rs| - total + 1
  {
    if rs != [] {
      var past := rs[..|rs| - 1];
      CausedCount(past, total);
      if total > 1 {
        FoundFirst(past, total);
      }
    }
  }

  lemma PrefixDelivered(rs: seq<Settled>, n: nat)
    requires AllDelivered(rs) && n <= |rs|
    ensures AllDelivered(rs[..n])
  {
  }

  /** One more receipt, and whether the card hears of a delivery. */
  lemma ReportDelivered(past: seq<Settled>, last: Settled, total: nat)
    requires Proper(past + [last], total) && total > 1
    ensures |past| + 1 < total ==> Report(past, last, total) == []
    ensures |past| + 1 == total ==> (Delivrd in Report(past, last, total) <==> AllDelivered(past + [last]))
    ensures |past| >= total && last.found && Delivrd in Report(past, last, total) ==> AllDelivered(past[..total])
    ensures |past| >= total && !last.found ==> (Delivrd in Report(past, last, total) <==> last.status == Delivrd)
  {
    ReceiptsMore(past, last, total);
    FoundFirst(past, total);
    AllDeliveredMore(past, last);
    if |past| >= total && AllDelivered(Found(past)) {
      PrefixDelivered(Found(past), total);
    }
  }

  lemma {:induction false} CausedDelivered(rs: seq<Settled>, total: nat)
    requires Proper(rs, total) && total > 1
    ensures Delivrd in Caused(rs, total) <==>
            || (|rs| >= total && AllDelivered(rs[..total]))
            || exists i :: total <= i < |rs| && !rs[i].found && rs[i].status == Delivrd
  {
    if rs != [] {
      var past, last := rs[..|rs| - 1], rs[|rs| - 1];
      assert rs == past + [last];
      CausedDelivered(past, total);
      ReportDelivered(past, last, total);
      assert forall i :: 0 <= i < |past| ==> past[i] == rs[i];
      if |rs| > total {
        assert past[..total] == rs[..total];
      } else if |rs| == total {
        assert rs[..total] == rs;
      }
    }
  }

  lemma StartOk()
    ensures Inv(START)
  {
  }

  lemma AccountKept(steps: seq<Step>, m: MsgId)
    requires Exec(START, steps).Some?
    ensures Kept(AccountOf(Exec(START, steps).value, m))
  {
    StartOk();
    ExecKeeps(START, steps);
  }

  /** Over every run, whatever overlaps, a message's events are its submission
      failure and what its counted receipts cause. */
  lemma EventsExactly(steps: seq<Step>, m: MsgId)
    requires Exec(START, steps).Some? && m in Exec(START, steps).value.sends
    ensures var w := Exec(START, steps).value;
            multiset(EventsOf(w.tables.events, m)) ==
              multiset(Caused(SettledOf(w.settled, m), w.sends[m].total)) + Failure(w.sends[m])
  {
    AccountKept(steps, m);
  }

  /** The number of a message's events, hence exactly when there is at most one:
      no more receipts are counted than it has parts, and fewer if its
      submission failed. */
  lemma AtMostOneExactly(steps: seq<Step>, m: MsgId)
    requires Exec(START, steps).Some? && m in Exec(START, steps).value.sends
    requires Exec(START, steps).value.sends[m].total > 0
    ensures var w := Exec(START, steps).value;
            var s, n := w.sends[m], |SettledOf(w.settled, m)|;
            && |EventsOf(w.tables.events, m)| ==
                 (if s.failed then 1 else 0) + (if n < s.total then 0 else n - s.total + 1)
            && (|EventsOf(w.tables.events, m)| <= 1 <==> if s.failed then n < s.total else n <= s.total)
  {
    AccountKept(steps, m);
    var w := Exec(START, steps).value;
    var rs, s := SettledOf(w.settled, m), w.sends[m];
    CausedCount(rs, s.total);
    assert |EventsOf(w.tables.events, m)| == |multiset(EventsOf(w.tables.events, m))|;
    assert |Caused(rs, s.total)| == |multiset(Caused(rs, s.total))|;
  }

  /** A multi-part message is reported delivered exactly when the first counted
      receipts, as many as it has parts, all say so, or a surplus one does that
      came too late to find the message's state. */
  lemma DeliveredExactly(steps: seq<Step>, m: MsgId)
    requires Exec(START, steps).Some? && m in Exec(START, steps).value.sends
    requires Exec(START, steps).value.sends[m].total > 1
    ensures var w := Exec(START, steps).value;
            var rs, total := SettledOf(w.settled, m), w.sends[m].total;
            Delivrd in EventsOf(w.tables.events, m) <==>
            || (|rs| >= total && AllDelivered(rs[..total]))
            || exists i :: total <= i < |rs| && !rs[i].found && rs[i].status == Delivrd
  {
    AccountKept(steps, m);
    var w := Exec(START, steps).value;
    CausedDelivered(SettledOf(w.settled, m), w.sends[m].total);
    InEvents(EventsOf(w.tables.events, m), Caused(SettledOf(w.settled, m), w.sends[m].total), w.sends[m], Delivrd);
  }

  lemma InEvents(evs: seq<DlrStatus>, caused: seq<DlrStatus>, s: Send, x: DlrStatus)
    requires multiset(evs) == multiset(caused) + Failure(s)
    ensures x in evs <==> x in caused || x in Failure(s)
  {
    assert x in evs <==> x in multiset(evs);
    assert x in caused <==> x in multiset(caused);
  }

  lemma {:induction false} CausedFrom(rs: seq<Settled>, total: nat, s: DlrStatus)
    requires s != Delivrd && s != Undeliv && forall i :: 0 <= i < |rs| ==> rs[i].status != s
    ensures s !in Caused(rs, total)
  {
    if rs != [] {
      CausedFrom(rs[..|rs| - 1], total, s);
    }
  }

  lemma {:induction false} SettledMembers(settled: seq<Settled>, m: MsgId)
    ensures forall x :: x in SettledOf(settled, m) <==> x in settled && x.msg == m
  {
    if settled != [] {
      SettledMembers(settled[..|settled| - 1], m);
      assert settled == settled[..|settled| - 1] + [settled[|settled| - 1]];
    }
  }

  /** A partial-submit failure is reported exactly when the submission failed
      with some but not all parts accepted, receipts never saying so themselves. */
  lemma PartialSubmitExactly(steps: seq<Step>, m: MsgId)
    requires Exec(START, steps).Some? && m in Exec(START, steps).value.sends
    requires forall x :: x in Exec(START, steps).value.settled ==> x.status != FailedPartialSubmit
    ensures var w := Exec(START, steps).value;
            var s := w.sends[m];
            FailedPartialSubmit in EventsOf(w.tables.events, m) <==> s.failed && 0 < s.submitted < s.total
  {
    AccountKept(steps, m);
    var w := Exec(START, steps).value;
    var rs := SettledOf(w.settled, m);
    SettledMembers(w.settled, m);
    forall i | 0 <= i < |rs| ensures rs[i].status != FailedPartialSubmit {
      assert rs[i] in rs;
    }
    CausedFrom(rs, w.sends[m].total, FailedPartialSubmit);
    InEvents(EventsOf(w.tables.events, m), Caused(rs, w.sends[m].total), w.sends[m], FailedPartialSubmit);
  }

  // --------------------------------------------------- which parts were reported

  /** Identifiers given to the parts of m. */
  function PartsOf(stored: map<SmscId, MsgId>, m: MsgId): set<SmscId> {
    set id | id in stored && stored[id] == m
  }

  /** Identifiers of parts belong to sent messages, one per accepted part, and
      only they are counted. */
  ghost predicate Attributed(w: World) {
    && (forall id :: id in w.stored ==> w.stored[id] in w.sends)
    && (forall m :: m in w.sends ==> |PartsOf(w.stored, m)| == w.sends[m].submitted <= w.sends[m].total)
    && (forall id :: id in w.tables.correlations ==> id in w.stored && w.stored[id] == w.tables.correlations[id].msg)
    && (forall v :: v in w.inHand && w.inHand[v].Names().Some? ==>
          w.inHand[v].id in w.stored && w.stored[w.inHand[v].id] == w.inHand[v].Names().value)
    && (forall x :: x in w.settled ==> x.id in w.stored && w.stored[x.id] == x.msg)
  }

  lemma PartsAfter(stored: map<SmscId, MsgId>, m: MsgId, id: SmscId, n: MsgId)
    requires id !in stored
    ensures |PartsOf(stored[id := m], n)| == |PartsOf(stored, n)| + if n == m then 1 else 0
  {
    if n == m {
      assert PartsOf(stored[id := m], n) == PartsOf(stored, n) + {id};
    } else {
      assert PartsOf(stored[id := m], n) == PartsOf(stored, n);
    }
  }

  lemma AcceptAttributed(w: World, m: MsgId, id: SmscId)
    requires Attributed(w) && Enabled(w, Accept(m, id))
    ensures Attributed(Next(w, Accept(m, id)))
  {
    var w' := Next(w, Accept(m, id));
    forall n | n in w'.sends ensures |PartsOf(w'.stored, n)| == w'.sends[n].submitted <= w'.sends[n].total {
      PartsAfter(w.stored, m, id, n);
    }
  }

  /** Steps after which identifiers stand as before. */
  lemma SameAttributed(w: World, w': World)
    requires Attributed(w) && w'.stored == w.stored && w'.sends.Keys == w.sends.Keys
    requires forall m :: m in w.sends ==> w'.sends[m].submitted == w.sends[m].submitted && w'.sends[m].total == w.sends[m].total
    requires forall id :: id in w'.tables.correlations ==>
               id in w.tables.correlations && w'.tables.correlations[id].msg == w.tables.correlations[id].msg
    requires forall v :: v in w'.inHand && w'.inHand[v].Names().Some? ==>
               w'.inHand[v].id in w.stored && w.stored[w'.inHand[v].id] == w'.inHand[v].Names().value
    requires forall x :: x in w'.settled ==> x.id in w.stored && w.stored[x.id] == x.msg
    ensures Attributed(w')
  {
    forall m ensures PartsOf(w'.stored, m) == PartsOf(w.stored, m) {
    }
  }

  lemma BeginAttributed(w: World, m: MsgId, total: nat)
    requires Attributed(w) && Enabled(w, Begin(m, total))
    ensures Attributed(Next(w, Begin(m, total)))
  {
    var w' := Next(w, Begin(m, total));
    assert PartsOf(w'.stored, m) == {};
    forall n ensures PartsOf(w'.stored, n) == PartsOf(w.stored, n) {
    }
  }

  lemma RefuseAttributed(w: World, m: MsgId)
    requires Attributed(w) && Enabled(w, Refuse(m))
    ensures Attributed(Next(w, Refuse(m)))
  {
    SameAttributed(w, Next(w, Refuse(m)));
  }

  lemma LoadAttributed(w: World, s: Step)
    requires Attributed(w) && Enabled(w, s) && s.Load?
    ensures Attributed(Next(w, s))
  {
    SameAttributed(w, Next(w, s));
  }

  lemma DropAttributed(w: World, s: Step)
    requires Attributed(w) && Enabled(w, s) && s.Drop?
    ensures Attributed(Next(w, s))
  {
    SameAttributed(w, Next(w, s));
  }

  /** The part is the one its correlation named. */
  lemma SettledAttributed(w: World, w': World, worker: nat, x: Settled)
    requires Attributed(w) && worker in w.inHand && w.inHand[worker].Names() == Some(x.msg) && x.id == w.inHand[worker].id
    requires w'.settled == w.settled + [x] && w'.inHand == w.inHand - {worker} && w'.stored == w.stored
    requires w'.tables.correlations == w.tables.correlations && w'.sends == w.sends
    ensures Attributed(w')
  {
    SameAttributed(w, w');
  }

  lemma FindAttributed(w: World, worker: nat)
    requires Attributed(w) && Enabled(w, Find(worker))
    ensures Attributed(Next(w, Find(worker)))
  {
    var r := w.inHand[worker];
    if r.stage.msg in w.tables.multipart {
      SameAttributed(w, Next(w, Find(worker)));
    } else {
      SettledAttributed(w, Next(w, Find(worker)), worker, Settled(r.stage.msg, r.id, r.status, false));
    }
  }

  lemma CountAttributed(w: World, worker: nat)
    requires Attributed(w) && Enabled(w, Count(worker))
    ensures Attributed(Next(w, Count(worker)))
  {
    var r := w.inHand[worker];
    SettledAttributed(w, Next(w, Count(worker)), worker, Settled(r.stage.msg, r.id, r.status, true));
  }

  lemma NextAttributed(w: World, s: Step)
    requires Attributed(w) && Enabled(w, s)
    ensures Attributed(Next(w, s))
  {
    match s
    case Begin(m, total) => BeginAttributed(w, m, total);
    case Accept(m, id) => AcceptAttributed(w, m, id);
    case Refuse(m) => RefuseAttributed(w, m);
    case Load(_, _, _) => LoadAttributed(w, s);
    case Drop(_, _) => DropAttributed(w, s);
    case Find(worker) => FindAttributed(w, worker);
    case Count(worker) => CountAttributed(w, worker);
    case Expire(_) => SameAttributed(w, Next(w, s));
    case Cleanup => SameAttributed(w, Next(w, s));
  }

  lemma {:induction false} ExecAttributed(w: World, steps: seq<Step>)
    requires Attributed(w) && Exec(w, steps).Some?
    ensures Attributed(Exec(w, steps).value)
    decreases |steps|
  {
    if steps != [] {
      NextAttributed(w, steps[0]);
      ExecAttributed(Next(w, steps[0]), steps[1..]);
    }
  }

  function Ids(rs: seq<Settled>): set<SmscId> {
    set x | x in rs :: x.id
  }

  ghost predicate Distinct(rs: seq<Settled>) {
    forall i, j :: 0 <= i < j < |rs| ==> rs[i].id != rs[j].id
  }

  lemma {:induction false} DistinctIds(rs: seq<Settled>)
    ensures |Ids(rs)| <= |rs| && (|Ids(rs)| == |rs| <==> Distinct(rs))
  {
    if rs != [] {
      var past, last := rs[..|rs| - 1], rs[|rs| - 1];
      DistinctIds(past);
      assert Ids(rs) == Ids(past) + {last.id} by {
        assert rs == past + [last];
      }
      assert last.id in Ids(past) <==> exists i :: 0 <= i < |past| && past[i].id == last.id;
      assert forall i :: 0 <= i < |past| ==> past[i] == rs[i];
    }
  }

  /** The delivered aggregate is true of every part exactly when the receipts it
      rests on are of different parts. */
  lemma DeliveredTruthfully(steps: seq<Step>, m: MsgId)
    requires Exec(START, steps).Some? && m in Exec(START, steps).value.sends
    requires var w := Exec(START, steps).value;
             w.sends[m].total > 1 && |SettledOf(w.settled, m)| >= w.sends[m].total
    ensures var w := Exec(START, steps).value;
            var s := w.sends[m];
            var first := SettledOf(w.settled, m)[..s.total];
            s.submitted == s.total && PartsOf(w.stored, m) == Ids(first) <==> Distinct(first)
  {
    ExecAttributed(START, steps);
    var w := Exec(START, steps).value;
    var s, rs := w.sends[m], SettledOf(w.settled, m);
    var first := rs[..s.total];
    SettledMembers(w.settled, m);
    forall id | id in Ids(first) ensures id in PartsOf(w.stored, m) {
      var x :| x in first && x.id == id;
      assert x in rs;
    }
    DistinctIds(first);
    SubsetSize(Ids(first), PartsOf(w.stored, m));
    if |Ids(first)| == s.total {
      FullSubset(Ids(first), PartsOf(w.stored, m));
    }
  }

  lemma FullSubset<T>(a: set<T>, b: set<T>)
    requires a <= b && |a| >= |b|
    ensures a == b
  {
    if x :| x in b && x !in a {
      SubsetSize(a + {x}, b);
    }
  }

  // ------------------------------------------------------------- serial handling

  /** No two receipts for one identifier are in hand at the same time. */
  predicate Serial(w: World, s: Step) {
    s.Load? ==> forall v :: v in w.inHand ==> w.inHand[v].id != s.id
  }

  predicate SerialRun(w: World, steps: seq<Step>)
    requires Exec(w, steps).Some?
    decreases |steps|
  {
    steps == [] || (Serial(w, steps[0]) && SerialRun(Next(w, steps[0]), steps[1..]))
  }

  /** A receipt that names its message is the only one of its part. */
  ghost predicate Alone(w: World, u: nat)
    requires u in w.inHand
  {
    var r := w.inHand[u];
    && (r.Names().Some? ==> r.id in w.stored && forall x :: x in w.settled ==> x.id != r.id)
    && (!r.stage.Loaded? ==> r.id !in w.tables.correlations)
    && forall v :: v in w.inHand && v != u ==> w.inHand[v].id != r.id
  }

  ghost predicate Once(w: World) {
    && Distinct(w.settled)
    && (forall x :: x in w.settled ==> x.id in w.stored && x.id !in w.tables.correlations)
    && (forall u :: u in w.inHand ==> Alone(w, u))
    && (forall id :: id in w.tables.correlations ==> id in w.stored)
  }

  /** A receipt of a part that was not counted before. */
  lemma SettledOnce(w: World, w': World, worker: nat, x: Settled)
    requires Once(w) && worker in w.inHand && !w.inHand[worker].stage.Loaded? && x.id == w.inHand[worker].id
    requires w'.settled == w.settled + [x] && w'.inHand == w.inHand - {worker} && w'.stored == w.stored
    requires w'.tables.correlations == w.tables.correlations
    ensures Once(w')
  {
    assert Alone(w, worker);
    assert forall i :: 0 <= i < |w.settled| ==> w.settled[i] in w.settled;
    forall u | u in w'.inHand ensures Alone(w', u) {
      assert Alone(w, u);
    }
  }

  /** Nothing is counted, and at most one handler moves on or ends. */
  lemma UnsettledOnce(w: World, w': World)
    requires Once(w) && w'.settled == w.settled
    requires forall id :: id in w.stored ==> id in w'.stored
    requires forall id :: id in w'.tables.correlations ==> id in w'.stored && (id in w.tables.correlations || id !in w.stored)
    requires forall u :: u in w'.inHand ==>
               u in w.inHand && w'.inHand[u].id == w.inHand[u].id
               && (w'.inHand[u] == w.inHand[u] || (w.inHand[u].Names().Some? && w'.inHand[u].id !in w'.tables.correlations))
    ensures Once(w')
  {
    forall u | u in w'.inHand ensures Alone(w', u) {
      assert Alone(w, u);
    }
  }

  lemma LoadOnce(w: World, s: Step)
    requires Once(w) && Enabled(w, s) && Serial(w, s) && s.Load?
    ensures Once(Next(w, s))
  {
    var w' := Next(w, s);
    forall u | u in w'.inHand ensures Alone(w', u) {
      assert u in w.inHand ==> Alone(w, u);
    }
  }

  lemma FindOnce(w: World, worker: nat)
    requires Once(w) && Enabled(w, Find(worker))
    ensures Once(Next(w, Find(worker)))
  {
    var r := w.inHand[worker];
    assert Alone(w, worker);
    if r.stage.msg in w.tables.multipart {
      UnsettledOnce(w, Next(w, Find(worker)));
    } else {
      SettledOnce(w, Next(w, Find(worker)), worker, Settled(r.stage.msg, r.id, r.status, false));
    }
  }

  lemma CountOnce(w: World, worker: nat)
    requires Once(w) && Enabled(w, Count(worker))
    ensures Once(Next(w, Count(worker)))
  {
    var r := w.inHand[worker];
    SettledOnce(w, Next(w, Count(worker)), worker, Settled(r.stage.msg, r.id, r.status, true));
  }

  lemma SubmitOnce(w: World, s: Step)
    requires Once(w) && Enabled(w, s) && (s.Begin? || s.Accept? || s.Refuse?)
    ensures Once(Next(w, s))
  {
    UnsettledOnce(w, Next(w, s));
  }

  lemma DropOnce(w: World, s: Step)
    requires Once(w) && Enabled(w, s) && s.Drop?
    ensures Once(Next(w, s))
  {
    UnsettledOnce(w, Next(w, s));
  }

  lemma NextOnce(w: World, s: Step)
    requires Once(w) && Enabled(w, s) && Serial(w, s)
    ensures Once(Next(w, s))
  {
    match s
    case Load(_, _, _) => LoadOnce(w, s);
    case Find(worker) => FindOnce(w, worker);
    case Count(worker) => CountOnce(w, worker);
    case Begin(_, _) => SubmitOnce(w, s);
    case Accept(_, _) => SubmitOnce(w, s);
    case Refuse(_) => SubmitOnce(w, s);
    case Drop(_, _) => DropOnce(w, s);
    case Expire(_) => UnsettledOnce(w, Next(w, s));
    case Cleanup => UnsettledOnce(w, Next(w, s));
  }

  lemma {:induction false} ExecOnce(w: World, steps: seq<Step>)
    requires Once(w) && Exec(w, steps).Some? && SerialRun(w, steps)
    ensures Once(Exec(w, steps).value)
    decreases |steps|
  {
    if steps != [] {
      NextOnce(w, steps[0]);
      ExecOnce(Next(w, steps[0]), steps[1..]);
    }
  }

  lemma {:induction false} DistinctOf(settled: seq<Settled>, m: MsgId)
    requires Distinct(settled)
    ensures Distinct(SettledOf(settled, m))
  {
    if settled != [] {
      var past := settled[..|settled| - 1];
      DistinctOf(past, m);
      SettledMembers(past, m);
      var rs := SettledOf(past, m);
      forall i | 0 <= i < |rs| ensures rs[i].id != settled[|settled| - 1].id {
        assert rs[i] in rs && rs[i] in past;
      }
    }
  }

  /** Handled serially, every receipt counted is of another part, so a message
      has at most one event and a delivered one is true. */
  lemma SerialSuffices(steps: seq<Step>, m: MsgId)
    requires Exec(START, steps).Some? && SerialRun(START, steps) && m in Exec(START, steps).value.sends
    ensures var w := Exec(START, steps).value;
            && Distinct(SettledOf(w.settled, m)) && |SettledOf(w.settled, m)| <= w.sends[m].submitted
            && |EventsOf(w.tables.events, m)| <= 1
  {
    AccountKept(steps, m);
    ExecOnce(START, steps);
    ExecAttributed(START, steps);
    var w := Exec(START, steps).value;
    var rs := SettledOf(w.settled, m);
    DistinctOf(w.settled, m);
    SettledMembers(w.settled, m);
    DistinctIds(rs);
    assert Ids(rs) <= PartsOf(w.stored, m);
    SubsetSize(Ids(rs), PartsOf(w.stored, m));
    if w.sends[m].total > 0 {
      AtMostOneExactly(steps, m);
    } else {
      assert |multiset(EventsOf(w.tables.events, m))| == |EventsOf(w.tables.events, m)|;
    }
  }

  // -------------------------------------------------------- overlaps do happen

  lemma {:induction false} ExecThen(w: World, a: seq<Step>, b: seq<Step>)
    requires Exec(w, a).Some?
    ensures Exec(w, a + b) == Exec(Exec(w, a).value, b)
    decreases |a|
  {
    if a == [] {
      assert a + b == b;
    } else {
      ExecThen(Next(w, a[0]), a[1..], b);
      assert (a + b)[1..] == a[1..] + b;
    }
  }

  /** A run reaches a world. */
  ghost predicate Reaches(w: World) {
    exists steps :: Exec(START, steps) == Some(w)
  }

  lemma ReachesStep(w: World, s: Step)
    requires Reaches(w) && Enabled(w, s)
    ensures Reaches(Next(w, s))
  {
    var steps :| Exec(START, steps) == Some(w);
    ExecThen(START, steps, [s]);
    ExecStep(w, s, []);
    assert [s] + [] == [s];
    assert Exec(START, steps + [s]) == Some(Next(w, s));
  }

  const FOUND := Some(Correlation(0, false))

  const BOTH_PARTS := map[7 := Correlation(0, false), 8 := Correlation(0, false)]

  /** A message of two parts, both accepted. */
  const ACCEPTED := World(
    Tables(BOTH_PARTS, map[0 := Multipart(2, 0, false)], []), map[], map[0 := Send(2, 2, false)], map[],
    map[7 := 0, 8 := 0], [])

  lemma FirstAccepted()
    ensures Reaches(World(Tables(map[7 := Correlation(0, false)], map[0 := Multipart(2, 0, false)], []), map[],
                          map[0 := Send(2, 1, false)], map[], map[7 := 0], []))
  {
    assert Exec(START, []) == Some(START);
    var w1 := Next(START, Begin(0, 2));
    ReachesStep(START, Begin(0, 2));
    ReachesStep(w1, Accept(0, 7));
    assert Next(w1, Accept(0, 7)).sends == map[0 := Send(2, 1, false)];
  }

  lemma AcceptedReached()
    ensures Reaches(ACCEPTED)
  {
    FirstAccepted();
    var w := World(Tables(map[7 := Correlation(0, false)], map[0 := Multipart(2, 0, false)], []), map[],
                   map[0 := Send(2, 1, false)], map[], map[7 := 0], []);
    ReachesStep(w, Accept(0, 8));
    assert Next(w, Accept(0, 8)) == ACCEPTED;
  }

  /** The receipts a, b and c of parts 7, 7 and 8 stand at the same stage. */
  function Standing(t: Tables, a: Receipt, b: Receipt, c: Receipt): World {
    World(t, map[], map[0 := Send(2, 2, false)], map[0 := a, 1 := b, 2 := c], map[7 := 0, 8 := 0], [])
  }

  const FRESH := Tables(BOTH_PARTS, map[0 := Multipart(2, 0, false)], [])

  lemma AllLoaded(x: DlrStatus, y: DlrStatus, z: DlrStatus)
    ensures Reaches(Standing(FRESH, Receipt(7, x, Loaded(FOUND)), Receipt(7, y, Loaded(FOUND)), Receipt(8, z, Loaded(FOUND))))
  {
    AcceptedReached();
    var w1 := Next(ACCEPTED, Load(0, 7, x));
    var w2 := Next(w1, Load(1, 7, y));
    var w3 := Next(w2, Load(2, 8, z));
    ReachesStep(ACCEPTED, Load(0, 7, x));
    ReachesStep(w1, Load(1, 7, y));
    ReachesStep(w2, Load(2, 8, z));
    assert w3.inHand == map[0 := Receipt(7, x, Loaded(FOUND)), 1 := Receipt(7, y, Loaded(FOUND)), 2 := Receipt(8, z, Loaded(FOUND))];
  }

  /** A loaded receipt goes on until it holds the state. */
  lemma TakesHold(w: World, worker: nat, id: SmscId, status: DlrStatus)
    requires Reaches(w) && 0 in w.tables.multipart
    requires worker in w.inHand && w.inHand[worker] == Receipt(id, status, Loaded(FOUND))
    ensures Reaches(w.(tables := w.tables.(correlations := w.tables.correlations - {id}),
                       inHand := w.inHand[worker := Receipt(id, status, Holding(0))]))
  {
    var w1 := Next(w, Drop(worker, false));
    var w2 := Next(w1, Find(worker));
    ReachesStep(w, Drop(worker, false));
    ReachesStep(w1, Find(worker));
    assert w2.inHand == w.inHand[worker := Receipt(id, status, Holding(0))];
  }

  const NO_PARTS := Tables(map[], map[0 := Multipart(2, 0, false)], [])

  const ONE_PART := Tables(map[8 := Correlation(0, false)], map[0 := Multipart(2, 0, false)], [])

  lemma FirstHolds(x: DlrStatus, y: DlrStatus, z: DlrStatus)
    ensures Reaches(Standing(ONE_PART, Receipt(7, x, Holding(0)), Receipt(7, y, Loaded(FOUND)), Receipt(8, z, Loaded(FOUND))))
  {
    var a, b, c := Receipt(7, x, Loaded(FOUND)), Receipt(7, y, Loaded(FOUND)), Receipt(8, z, Loaded(FOUND));
    AllLoaded(x, y, z);
    TakesHold(Standing(FRESH, a, b, c), 0, 7, x);
    assert BOTH_PARTS - {7} == ONE_PART.correlations;
    assert map[0 := a, 1 := b, 2 := c][0 := Receipt(7, x, Holding(0))] == map[0 := Receipt(7, x, Holding(0)), 1 := b, 2 := c];
  }

  lemma SecondHolds(x: DlrStatus, y: DlrStatus, z: DlrStatus)
    ensures Reaches(Standing(ONE_PART, Receipt(7, x, Holding(0)), Receipt(7, y, Holding(0)), Receipt(8, z, Loaded(FOUND))))
  {
    var a, b, c := Receipt(7, x, Holding(0)), Receipt(7, y, Loaded(FOUND)), Receipt(8, z, Loaded(FOUND));
    FirstHolds(x, y, z);
    TakesHold(Standing(ONE_PART, a, b, c), 1, 7, y);
    assert ONE_PART.correlations - {7} == ONE_PART.correlations;
    assert map[0 := a, 1 := b, 2 := c][1 := Receipt(7, y, Holding(0))] == map[0 := a, 1 := Receipt(7, y, Holding(0)), 2 := c];
  }

  lemma AllHolding(x: DlrStatus, y: DlrStatus, z: DlrStatus)
    ensures Reaches(Standing(NO_PARTS, Receipt(7, x, Holding(0)), Receipt(7, y, Holding(0)), Receipt(8, z, Holding(0))))
  {
    var a, b, c := Receipt(7, x, Holding(0)), Receipt(7, y, Holding(0)), Receipt(8, z, Loaded(FOUND));
    SecondHolds(x, y, z);
    TakesHold(Standing(ONE_PART, a, b, c), 2, 8, z);
    assert ONE_PART.correlations - {8} == map[];
    assert map[0 := a, 1 := b, 2 := c][2 := Receipt(8, z, Holding(0))] == map[0 := a, 1 := b, 2 := Receipt(8, z, Holding(0))];
  }

  /** A held state is counted on. */
  lemma CountReached(w: World, worker: nat, x: Settled, p: Multipart)
    requires Reaches(w) && worker in w.inHand && w.inHand[worker] == Receipt(x.id, x.status, Holding(x.msg))
    requires x.found && StateOf(w, x.msg) == Some(p)
    ensures var q := CountPart(p, x.status == Delivrd);
            var w' := w.(inHand := w.inHand - {worker}, settled := w.settled + [x]);
            && (q.resolved >= q.total ==>
                  Reaches(w'.(tables := w.tables.(multipart := w.tables.multipart - {x.msg},
                                                  events := w.tables.events + [Event(x.msg, Aggregate(q.anyFailed))]),
                              gone := w.gone[x.msg := q])))
            && (q.resolved < q.total && x.msg in w.tables.multipart ==>
                  Reaches(w'.(tables := w.tables.(multipart := w.tables.multipart[x.msg := q]))))
  {
    ReachesStep(w, Count(worker));
  }

  /** A world in which only these receipts of the message are in hand. */
  function Left(open: map<MsgId, Multipart>, gone: map<MsgId, Multipart>, inHand: map<nat, Receipt>,
                settled: seq<Settled>, events: seq<Event>): World
  {
    World(Tables(map[], open, events), gone, map[0 := Send(2, 2, false)], inHand, map[7 := 0, 8 := 0], settled)
  }

  lemma FirstCounted(x: DlrStatus, y: DlrStatus, z: DlrStatus)
    ensures Reaches(Left(map[0 := Multipart(2, 1, x != Delivrd)], map[],
                         map[1 := Receipt(7, y, Holding(0)), 2 := Receipt(8, z, Holding(0))], [Settled(0, 7, x, true)], []))
  {
    AllHolding(x, y, z);
    var a, b, c := Receipt(7, x, Holding(0)), Receipt(7, y, Holding(0)), Receipt(8, z, Holding(0));
    var p := Multipart(2, 0, false);
    CountReached(Left(map[0 := p], map[], map[0 := a, 1 := b, 2 := c], [], []), 0, Settled(0, 7, x, true), p);
    assert map[0 := a, 1 := b, 2 := c] - {0} == map[1 := b, 2 := c];
    assert map[0 := p][0 := Multipart(2, 1, x != Delivrd)] == map[0 := Multipart(2, 1, x != Delivrd)];
    assert [] + [Settled(0, 7, x, true)] == [Settled(0, 7, x, true)];
  }

  /** One part's receipts are both counted while the other part's holds the
      state too. */
  lemma BothCounted(x: DlrStatus, y: DlrStatus, z: DlrStatus)
    ensures var failed := x != Delivrd || y != Delivrd;
            Reaches(Left(map[], map[0 := Multipart(2, 2, failed)], map[2 := Receipt(8, z, Holding(0))],
                         [Settled(0, 7, x, true), Settled(0, 7, y, true)], [Event(0, Aggregate(failed))]))
  {
    FirstCounted(x, y, z);
    var b, c := Receipt(7, y, Holding(0)), Receipt(8, z, Holding(0));
    var q := Multipart(2, 1, x != Delivrd);
    CountReached(Left(map[0 := q], map[], map[1 := b, 2 := c], [Settled(0, 7, x, true)], []), 1, Settled(0, 7, y, true), q);
    assert map[1 := b, 2 := c] - {1} == map[2 := c];
    var q' := CountPart(q, y == Delivrd);
    assert map[0 := q] - {0} == map[] && map[][0 := q'] == map[0 := q'];
    assert [] + [Event(0, Aggregate(q'.anyFailed))] == [Event(0, Aggregate(q'.anyFailed))];
    assert [Settled(0, 7, x, true)] + [Settled(0, 7, y, true)] == [Settled(0, 7, x, true), Settled(0, 7, y, true)];
  }

  lemma TwoEvents(a: DlrStatus, b: DlrStatus)
    ensures EventsOf([Event(0, a), Event(0, b)], 0) == [a, b]
  {
    EventsAppend([], Event(0, a), 0);
    EventsAppend([Event(0, a)], Event(0, b), 0);
    assert [] + [Event(0, a)] == [Event(0, a)];
    assert [Event(0, a)] + [Event(0, b)] == [Event(0, a), Event(0, b)];
  }

  lemma ThreeSettled(a: Settled, b: Settled, c: Settled)
    requires a.msg == 0 && b.msg == 0 && c.msg == 0
    ensures SettledOf([a, b, c], 0) == [a, b, c]
  {
    SettledAppend([], a, 0);
    SettledAppend([a], b, 0);
    SettledAppend([a, b], c, 0);
    assert [] + [a] == [a] && [a] + [b] == [a, b] && [a, b] + [c] == [a, b, c];
  }

  /** The receipt of the second part held the state before the two receipts of the
      first were counted: what it makes the card hear is the aggregate of all
      three, not its own status. */
  lemma SurplusHolds(x: DlrStatus, y: DlrStatus, z: DlrStatus)
    ensures exists w ::
              && Reaches(w)
              && EventsOf(w.tables.events, 0) ==
                   [Aggregate(x != Delivrd || y != Delivrd), Aggregate(x != Delivrd || y != Delivrd || z != Delivrd)]
              && SettledOf(w.settled, 0) == [Settled(0, 7, x, true), Settled(0, 7, y, true), Settled(0, 8, z, true)]
  {
    var failed := x != Delivrd || y != Delivrd;
    var a, b, c := Settled(0, 7, x, true), Settled(0, 7, y, true), Settled(0, 8, z, true);
    var p := Multipart(2, 2, failed);
    var w := Left(map[], map[0 := p], map[2 := Receipt(8, z, Holding(0))], [a, b], [Event(0, Aggregate(failed))]);
    BothCounted(x, y, z);
    CountReached(w, 2, c, p);
    var events := [Event(0, Aggregate(failed)), Event(0, Aggregate(failed || z != Delivrd))];
    assert w.tables.events + [events[1]] == events;
    assert [a, b] + [c] == [a, b, c];
    TwoEvents(Aggregate(failed), Aggregate(failed || z != Delivrd));
    ThreeSettled(a, b, c);
  }

  /** Overlaps mislead: one part's receipt is counted twice, and the card is told
      of a delivery while the other part was not delivered, and then told again. */
  lemma OverlapMisleads()
    ensures exists w :: Reaches(w) && EventsOf(w.tables.events, 0) == [Delivrd, Undeliv]
                        && |SettledOf(w.settled, 0)| == 3 && SettledOf(w.settled, 0)[2] == Settled(0, 8, Undeliv, true)
  {
    SurplusHolds(Delivrd, Delivrd, Undeliv);
  }

  /** And a delivered second part is never reported, though its receipt causes an
      event: both events say the message failed. */
  lemma SurplusAggregate()
    ensures exists w :: Reaches(w) && EventsOf(w.tables.events, 0) == [Undeliv, Undeliv]
                        && |SettledOf(w.settled, 0)| == 3 && SettledOf(w.settled, 0)[2] == Settled(0, 8, Delivrd, true)
  {
    SurplusHolds(Undeliv, Undeliv, Delivrd);
  }
}
