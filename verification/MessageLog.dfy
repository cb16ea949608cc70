/** The batched message-log writers: creates and updates coalesced per message
    until a flush, several writers draining one channel. */
module MessageLog {
  import opened Common

  type Id = nat

  /** Columns an update may name.  Timestamps are not modelled. */
  datatype Column =
    | Status | SmppId | CounterHex | DlrStatus | PorStatus | PorData | ErrorCode | Unknown(name: string)
  {
    /** Columns an update can still reach while the create is pending. */
    predicate Tracked() {
      Status? || SmppId? || CounterHex?
    }
  }

  datatype Value = Str(text: string) | Int(n: int) | Blob(bytes: seq<byte>)

  type Fields = map<Column, Value>

  datatype Meta = Meta(
    id: Id, at: int, campaign: Option<nat>, card: nat, direction: string, raw: seq<byte>, secured: seq<byte>)

  datatype Entry = Entry(meta: Meta, status: string, counterHex: string, smppId: string)

  /** `Create(None)` is a create without an entry, or with one that does not
      convert; `Update(None, _)` one without an id. */
  datatype Action = Create(log: Option<Entry>) | Update(id: Option<Id>, fields: Fields)

  function Allowed(f: Fields): Fields {
    map c | c in f && !c.Unknown? :: f[c]
  }

  function Strings(f: Fields): Fields {
    map c | c in f && c.Tracked() && f[c].Str? :: f[c]
  }

  /** A stored or pending row; a column missing from `cols` is null. */
  datatype Row = Row(meta: Meta, cols: Fields) {
    /** UPDATE of the allowed columns. */
    function Set(f: Fields): Row {
      Row(meta, cols + Allowed(f))
    }

    /** The merge into a pending create. */
    function Patch(f: Fields): Row {
      Row(meta, cols + Strings(f))
    }
  }

  function NonEmpty(c: Column, text: string): Fields {
    if text != "" then map[c := Str(text)] else map[]
  }

  function RowOf(e: Entry): Row {
    Row(e.meta, map[Status := Str(e.status)] + NonEmpty(CounterHex, e.counterHex) + NonEmpty(SmppId, e.smppId))
  }

  /** What an entry says of a column: its status, counter and SMPP id, the last two
      only if they are not empty, and nothing else. */
  function Recorded(e: Entry, c: Column): Option<Value> {
    match c
    case Status => Some(Str(e.status))
    case CounterHex => if e.counterHex == "" then None else Some(Str(e.counterHex))
    case SmppId => if e.smppId == "" then None else Some(Str(e.smppId))
    case _ => None
  }

  function ValueAt(r: Row, c: Column): Option<Value> {
    if c in r.cols then Some(r.cols[c]) else None
  }

  /** A created row holds just what its entry says. */
  lemma CreatedRecords(e: Entry, c: Column)
    ensures RowOf(e).meta == e.meta && ValueAt(RowOf(e), c) == Recorded(e, c)
  {
  }

  /** Rows of one message by creation time: the key is (id, created_at). */
  type Rows = map<int, Row>

  type Table = map<Id, Rows>

  function RowsAt(t: Table, id: Id): Rows {
    if id in t then t[id] else map[]
  }

  function WithRow(rs: Rows, r: Row): Rows {
    if r.meta.at in rs then rs else rs[r.meta.at := r]
  }

  function WithFields(rs: Rows, f: Fields): Rows {
    map at | at in rs :: rs[at].Set(f)
  }

  // ------------------------------------------------------------ one at a time

  /** INSERT ... ON CONFLICT (id, created_at) DO NOTHING. */
  function InsertRow(t: Table, r: Row): Table {
    t[r.meta.id := WithRow(RowsAt(t, r.meta.id), r)]
  }

  function UpdateRows(t: Table, id: Id, f: Fields): Table {
    if id in t then t[id := WithFields(t[id], f)] else t
  }

  function WriteOne(t: Table, a: Action): Table {
    match a
    case Create(None) => t
    case Create(Some(e)) => InsertRow(t, RowOf(e))
    case Update(None, _) => t
    case Update(Some(id), f) => UpdateRows(t, id, f)
  }

  /** The plain log: every action written when it arrives. */
  function Sequential(t: Table, actions: seq<Action>): Table {
    if actions == [] then t else WriteOne(Sequential(t, actions[..|actions| - 1]), actions[|actions| - 1])
  }

  // ---------------------------------------------------------------- one writer

  datatype Buffers = Buffers(creates: map<Id, Row>, updates: map<Id, Fields>) {
    ghost predicate Disjoint() {
      creates.Keys !! updates.Keys
    }

    ghost predicate Owned() {
      forall id :: id in creates ==> creates[id].meta.id == id
    }
  }

  const EMPTY := Buffers(map[], map[])

  function Process(b: Buffers, a: Action): Buffers {
    match a
    case Create(None) => b
    case Create(Some(e)) =>
      var id := e.meta.id;
      Buffers(b.creates[id := if id in b.updates then RowOf(e).Patch(b.updates[id]) else RowOf(e)], b.updates - {id})
    case Update(None, _) => b
    case Update(Some(id), f) =>
      if f == map[] then b
      else if id in b.creates then b.(creates := b.creates[id := b.creates[id].Patch(f)])
      else b.(updates := b.updates[id := if id in b.updates then b.updates[id] + f else f])
  }

  function InsertAll(t: Table, creates: map<Id, Row>): Table {
    map id | id in t.Keys + creates.Keys :: if id in creates then WithRow(RowsAt(t, id), creates[id]) else t[id]
  }

  function UpdateAll(t: Table, updates: map<Id, Fields>): Table {
    map id | id in t :: if id in updates then WithFields(t[id], updates[id]) else t[id]
  }

  /** Pending creates are written before pending updates. */
  function Flushed(t: Table, b: Buffers): Table {
    UpdateAll(InsertAll(t, b.creates), b.updates)
  }

  /** A message is never pending both as a create and as an update. */
  lemma PendingDisjoint(b: Buffers, a: Action)
    requires b.Disjoint() && b.Owned()
    ensures Process(b, a).Disjoint() && Process(b, a).Owned()
  {
  }

  /** Within a window it does not matter whether the update or its create came
      first. */
  lemma UpdateBeforeCreate(b: Buffers, e: Entry, f: Fields)
    requires e.meta.id !in b.creates && e.meta.id !in b.updates && f != map[]
    ensures var c, u := Create(Some(e)), Update(Some(e.meta.id), f);
            Process(Process(b, u), c) == Process(Process(b, c), u)
  {
    var c, u := Create(Some(e)), Update(Some(e.meta.id), f);
    assert Process(Process(b, u), c).updates == Process(Process(b, c), u).updates;
  }

  /** The database the writers share. */
  class MessageHistory {
    var rows: Table

    constructor (t: Table)
      ensures rows == t
    {
      rows := t;
    }
  }

  datatype Signal = Arrived(action: Action) | Tick

  class MessageWriter {
    var creates: map<Id, Row>
    var updates: map<Id, Fields>

    ghost function Pending(): Buffers
      reads this
    {
      Buffers(creates, updates)
    }

    ghost predicate Valid()
      reads this
    {
      Pending().Disjoint() && Pending().Owned()
    }

    constructor ()
      ensures Pending() == EMPTY && Valid()
    {
      creates, updates := map[], map[];
    }

    method Take(action: Action)
      requires Valid()
      modifies this
      ensures Pending() == Process(old(Pending()), action) && Valid()
    {
      PendingDisjoint(Pending(), action);
      match action
      case Create(None) =>
      case Create(Some(e)) =>
        var row := RowOf(e);
        if e.meta.id in updates {
          row := row.Patch(updates[e.meta.id]);
          updates := updates - {e.meta.id};
        } else {
          assert updates - {e.meta.id} == updates;
        }
        creates := creates[e.meta.id := row];
      case Update(None, _) =>
      case Update(Some(id), f) =>
        if f != map[] {
          if id in creates {
            creates := creates[id := creates[id].Patch(f)];
          } else {
            var existing := if id in updates then updates[id] else map[];
            assert map[] + f == f;
            updates := updates[id := existing + f];
          }
        }
    }

    /** Rows are visited in whatever order the map gives. */
    static method InsertPending(table: Table, creates: map<Id, Row>) returns (t: Table)
      requires forall id :: id in creates ==> creates[id].meta.id == id
      ensures t == InsertAll(table, creates)
    {
      t := table;
      var todo := creates.Keys;
      assert InsertAll(table, creates - todo) == table;
      while todo != {}
        invariant todo <= creates.Keys
        invariant t == InsertAll(table, creates - todo)
        decreases todo
      {
        var id :| id in todo;
        InsertLeft(table, creates, todo, id);
        t := InsertRow(t, creates[id]);
        todo := todo - {id};
      }
      assert creates - {} == creates;
    }

    static method UpdatePending(table: Table, updates: map<Id, Fields>) returns (t: Table)
      ensures t == UpdateAll(table, updates)
    {
      t := table;
      var todo := updates.Keys;
      while todo != {}
        invariant todo <= updates.Keys
        invariant t == UpdateAll(table, updates - todo)
        decreases todo
      {
        var id :| id in todo;
        t := UpdateRows(t, id, updates[id]);
        todo := todo - {id};
      }
      assert updates - {} == updates;
    }

    method FlushBuffers(db: MessageHistory)
      requires Valid()
      modifies this, db
      ensures db.rows == Flushed(old(db.rows), old(Pending()))
      ensures Pending() == EMPTY && Valid()
    {
      var t := InsertPending(db.rows, creates);
      t := UpdatePending(t, updates);
      db.rows := t;
      creates, updates := map[], map[];
    }

    /** One round of the loop: the action is taken, if there is one; a tick, or
        a buffer that has reached the batch size, causes a flush. */
    method Handle(signal: Signal, db: MessageHistory, maxBatch: int) returns (ghost steps: seq<Step>)
      requires Valid()
      modifies this, db
      ensures Valid() && Within(1, steps)
      ensures Actions(steps) == if signal.Arrived? then [signal.action] else []
      ensures World(db.rows, [Pending()]) == Exec(World(old(db.rows), [old(Pending())]), steps)
    {
      ghost var start := World(db.rows, [Pending()]);
      steps := [];
      var full := true;
      if signal.Arrived? {
        Take(signal.action);
        TakeMore(start, steps, signal.action);
        steps := steps + [Step.Take(0, signal.action)];
        full := Counts(signal.action) && (if signal.action.Create? then |creates| else |updates|) >= maxBatch;
      }
      if full {
        FlushBuffers(db);
        FlushMore(start, steps);
        steps := steps + [Flush(0)];
      }
    }

    /** The writer loop until its channel closes. */
    method Run(signals: seq<Signal>, db: MessageHistory, maxBatch: int) returns (ghost steps: seq<Step>)
      requires Pending() == EMPTY
      modifies this, db
      ensures Within(1, steps) && Actions(steps) == Arrivals(signals)
      ensures steps != [] && steps[|steps| - 1] == Flush(0)
      ensures World(db.rows, [Pending()]) == Exec(World(old(db.rows), [EMPTY]), steps)
    {
      steps := [];
      ghost var start := World(db.rows, [EMPTY]);
      var i := 0;
      while i < |signals|
        invariant 0 <= i <= |signals| && Valid()
        invariant Within(1, steps) && Actions(steps) == Arrivals(signals[..i])
        invariant World(db.rows, [Pending()]) == Exec(start, steps)
      {
        assert signals[..i + 1][..i] == signals[..i];
        ghost var more := Handle(signals[i], db, maxBatch);
        ExecConcat(start, steps, more);
        steps := steps + more;
        i := i + 1;
      }
      assert signals[..|signals|] == signals;
      FlushBuffers(db);
      FlushMore(start, steps);
      steps := steps + [Flush(0)];
    }
  }

  lemma InsertMore(t: Table, m: map<Id, Row>, r: Row)
    requires r.meta.id !in m
    ensures InsertAll(t, m[r.meta.id := r]) == InsertRow(InsertAll(t, m), r)
  {
  }

  lemma InsertLeft(t: Table, creates: map<Id, Row>, todo: set<Id>, id: Id)
    requires id in todo && todo <= creates.Keys && creates[id].meta.id == id
    ensures InsertAll(t, creates - (todo - {id})) == InsertRow(InsertAll(t, creates - todo), creates[id])
  {
    InsertMore(t, creates - todo, creates[id]);
    assert creates - (todo - {id}) == (creates - todo)[id := creates[id]];
  }

  /** Actions the loop does not skip. */
  predicate Counts(a: Action) {
    match a
    case Create(e) => e.Some?
    case Update(id, f) => id.Some? && f != map[]
  }

  // ------------------------------------------------------------- many writers

  datatype World = World(table: Table, writers: seq<Buffers>)

  datatype Step = Take(w: nat, action: Action) | Flush(w: nat)

  predicate Within(n: nat, steps: seq<Step>) {
    forall i :: 0 <= i < |steps| ==> steps[i].w < n
  }

  function Next(w: World, s: Step): World
    requires s.w < |w.writers|
  {
    match s
    case Take(i, a) => w.(writers := w.writers[i := Process(w.writers[i], a)])
    case Flush(i) => World(Flushed(w.table, w.writers[i]), w.writers[i := EMPTY])
  }

  function Exec(w: World, steps: seq<Step>): (r: World)
    requires Within(|w.writers|, steps)
    ensures |r.writers| == |w.writers|
  {
    if steps == [] then w else Next(Exec(w, steps[..|steps| - 1]), steps[|steps| - 1])
  }

  function Actions(steps: seq<Step>): seq<Action> {
    if steps == [] then []
    else
      var s := steps[|steps| - 1];
      Actions(steps[..|steps| - 1]) + if s.Take? then [s.action] else []
  }

  function Arrivals(signals: seq<Signal>): seq<Action> {
    if signals == [] then []
    else
      var s := signals[|signals| - 1];
      Arrivals(signals[..|signals| - 1]) + if s.Arrived? then [s.action] else []
  }

  lemma StepMore(w: World, steps: seq<Step>, s: Step)
    requires Within(|w.writers|, steps) && s.w < |w.writers|
    ensures Within(|w.writers|, steps + [s])
    ensures Exec(w, steps + [s]) == Next(Exec(w, steps), s)
    ensures Actions(steps + [s]) == Actions(steps) + if s.Take? then [s.action] else []
  {
    assert (steps + [s])[..|steps|] == steps;
  }

  lemma TakeMore(w: World, steps: seq<Step>, a: Action)
    requires |w.writers| == 1 && Within(1, steps)
    ensures Within(1, steps + [Step.Take(0, a)]) && Actions(steps + [Step.Take(0, a)]) == Actions(steps) + [a]
    ensures var x := Exec(w, steps); Exec(w, steps + [Step.Take(0, a)]) == World(x.table, [Process(x.writers[0], a)])
  {
    StepMore(w, steps, Step.Take(0, a));
  }

  lemma FlushMore(w: World, steps: seq<Step>)
    requires |w.writers| == 1 && Within(1, steps)
    ensures Within(1, steps + [Flush(0)]) && Actions(steps + [Flush(0)]) == Actions(steps)
    ensures var x := Exec(w, steps); Exec(w, steps + [Flush(0)]) == World(Flushed(x.table, x.writers[0]), [EMPTY])
  {
    StepMore(w, steps, Flush(0));
  }

  lemma {:induction false} ExecConcat(w: World, a: seq<Step>, b: seq<Step>)
    requires Within(|w.writers|, a) && Within(|w.writers|, b)
    ensures Within(|w.writers|, a + b)
    ensures Exec(w, a + b) == Exec(Exec(w, a), b)
    ensures Actions(a + b) == Actions(a) + Actions(b)
    decreases |b|
  {
    ActionsConcat(a, b);
    if b == [] {
      assert a + b == a;
    } else {
      ExecConcat(w, a, b[..|b| - 1]);
      assert (a + b)[..|a + b| - 1] == a + b[..|b| - 1];
    }
  }

  lemma {:induction false} ActionsConcat(a: seq<Step>, b: seq<Step>)
    ensures Actions(a + b) == Actions(a) + Actions(b)
    decreases |b|
  {
    if b == [] {
      assert a + b == a;
    } else {
      ActionsConcat(a, b[..|b| - 1]);
      assert (a + b)[..|a + b| - 1] == a + b[..|b| - 1];
    }
  }

  /** A row in the table outlasts a flush: a pending create for its id and time does
      not touch it, and a pending update sets the allowed columns it names. */
  lemma FlushKeepsRows(t: Table, b: Buffers, id: Id, at: int, c: Column)
    requires at in RowsAt(t, id) && b.Owned()
    ensures var old', new' := RowsAt(t, id)[at], RowsAt(Flushed(t, b), id);
            && at in new' && new'[at].meta == old'.meta
            && ValueAt(new'[at], c) ==
                 if id in b.updates && c in b.updates[id] && !c.Unknown? then Some(b.updates[id][c]) else ValueAt(old', c)
  {
  }
}
