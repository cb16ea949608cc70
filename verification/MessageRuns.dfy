/** Whole runs of the message writers: what ends up in message_history, against
    the plain one-at-a-time log. */
module MessageRuns {
  import opened Common
  import opened MessageLog

  // ---------------------------------------------------------- one message's run

  /** Actions that do something to the message. */
  predicate About(a: Action, id: Id) {
    match a
    case Create(e) => e.Some? && e.value.meta.id == id
    case Update(i, f) => i == Some(id) && f != map[]
  }

  /** The columns of a pending create are strings; so are the values sent for them. */
  predicate Typed(a: Action) {
    a.Update? ==> forall c :: c in a.fields && c.Tracked() ==> a.fields[c].Str?
  }

  /** What each writer has taken since its last flush, and the flushed windows
      in flush order, of one message. */
  datatype History = History(windows: seq<seq<Action>>, log: seq<seq<Action>>)

  function Observe(h: History, s: Step, id: Id): History
    requires s.w < |h.windows|
  {
    match s
    case Take(w, a) => if About(a, id) then h.(windows := h.windows[w := h.windows[w] + [a]]) else h
    case Flush(w) => History(h.windows[w := []], h.log + [h.windows[w]])
  }

  function Watch(n: nat, steps: seq<Step>, id: Id): (h: History)
    requires Within(n, steps)
    ensures |h.windows| == n
  {
    if steps == [] then History(seq(n, _ => []), [])
    else Observe(Watch(n, steps[..|steps| - 1], id), steps[|steps| - 1], id)
  }

  /** The message's actions in the order they were taken. */
  function Taken(steps: seq<Step>, id: Id): seq<Action> {
    if steps == [] then []
    else
      var s := steps[|steps| - 1];
      Taken(steps[..|steps| - 1], id) + if s.Take? && About(s.action, id) then [s.action] else []
  }

  function Creates(actions: seq<Action>): nat {
    if actions == [] then 0
    else Creates(actions[..|actions| - 1]) + if actions[|actions| - 1].Create? then 1 else 0
  }

  /** One create per message, and no row from before. */
  ghost predicate CreatedOnce(t: Table, steps: seq<Step>, id: Id) {
    Creates(Taken(steps, id)) == 0 || (Creates(Taken(steps, id)) == 1 && RowsAt(t, id) == map[])
  }

  ghost predicate AllTyped(steps: seq<Step>) {
    forall i :: 0 <= i < |steps| && steps[i].Take? ==> Typed(steps[i].action)
  }

  // ------------------------------------------------------------ flushed windows

  /** The last create of a window. */
  function EntryOf(win: seq<Action>): Option<Entry> {
    if win == [] then None
    else if win[|win| - 1].Create? then win[|win| - 1].log
    else EntryOf(win[..|win| - 1])
  }

  /** The updates of a window, cut down to what a pending create keeps of them. */
  function Trimmed(win: seq<Action>): seq<Action> {
    if win == [] then []
    else
      var a := win[|win| - 1];
      Trimmed(win[..|win| - 1]) + match a case Create(_) => [] case Update(i, f) => [Update(i, Strings(f))]
  }

  /** What flushing a window amounts to. */
  function Commit(win: seq<Action>): seq<Action> {
    match EntryOf(win)
    case None => win
    case Some(e) => [Create(Some(e))] + Trimmed(win)
  }

  function Committed(t: Table, log: seq<seq<Action>>): Table {
    if log == [] then t else Sequential(Committed(t, log[..|log| - 1]), Commit(log[|log| - 1]))
  }

  function Merged(win: seq<Action>): Fields {
    if win == [] then map[]
    else
      var a := win[|win| - 1];
      match a case Create(_) => Merged(win[..|win| - 1]) case Update(_, f) => Merged(win[..|win| - 1]) + f
  }

  /** A row after the updates among the actions. */
  function Written(r: Row, actions: seq<Action>): Row {
    if actions == [] then r
    else
      var a := actions[|actions| - 1];
      match a
      case Create(_) => Written(r, actions[..|actions| - 1])
      case Update(_, f) => Written(r, actions[..|actions| - 1]).Set(f)
  }

  ghost predicate Proper(win: seq<Action>, id: Id) {
    forall i :: 0 <= i < |win| ==> About(win[i], id) && Typed(win[i])
  }

  // ----------------------------------------------------------- merging updates

  lemma SetTwice(r: Row, f: Fields, g: Fields)
    ensures r.Set(f + g) == r.Set(f).Set(g)
  {
    assert Allowed(f + g) == Allowed(f) + Allowed(g);
  }

  lemma PatchTwice(r: Row, f: Fields, g: Fields)
    requires forall c :: c in g && c.Tracked() ==> g[c].Str?
    ensures r.Patch(f + g) == r.Patch(f).Patch(g)
  {
    assert Strings(f + g) == Strings(f) + Strings(g);
  }

  lemma PatchIsSet(r: Row, f: Fields)
    ensures r.Patch(f) == r.Set(Strings(f))
  {
    assert Allowed(Strings(f)) == Strings(f);
  }

  lemma {:induction false} SetMerged(r: Row, win: seq<Action>)
    ensures r.Set(Merged(win)) == Written(r, win)
  {
    if win == [] {
      assert r.cols + Allowed(map[]) == r.cols;
    } else {
      var init, a := win[..|win| - 1], win[|win| - 1];
      SetMerged(r, init);
      if a.Update? {
        SetTwice(r, Merged(init), a.fields);
      }
    }
  }

  lemma WrittenMore(r: Row, us: seq<Action>, u: Action)
    requires u.Update?
    ensures Written(r, us + [u]) == Written(r, us).Set(u.fields)
  {
    assert (us + [u])[..|us|] == us;
  }

  lemma {:induction false} PatchMerged(r: Row, win: seq<Action>)
    requires forall i :: 0 <= i < |win| ==> Typed(win[i])
    ensures r.Patch(Merged(win)) == Written(r, Trimmed(win))
  {
    if win == [] {
      assert r.cols + Strings(map[]) == r.cols;
    } else {
      var init, a := win[..|win| - 1], win[|win| - 1];
      PatchMerged(r, init);
      match a
      case Update(i, f) =>
        PatchTwice(r, Merged(init), f);
        PatchIsSet(Written(r, Trimmed(init)), f);
        WrittenMore(r, Trimmed(init), Update(i, Strings(f)));
      case Create(_) =>
        assert Trimmed(win) == Trimmed(init);
    }
  }

  // ------------------------------------------------------ what a buffer stands for

  /** The buffers hold, of the message, exactly the window. */
  ghost predicate Holds(b: Buffers, win: seq<Action>, id: Id) {
    && Proper(win, id)
    && match EntryOf(win)
       case None => id !in b.creates && (if win == [] then id !in b.updates else id in b.updates && b.updates[id] == Merged(win))
       case Some(e) => id !in b.updates && id in b.creates && b.creates[id] == Written(RowOf(e), Trimmed(win))
  }

  lemma EmptyHolds(id: Id)
    ensures Holds(EMPTY, [], id)
  {
  }

  lemma {:induction false} EntryOfProper(win: seq<Action>, id: Id)
    requires Proper(win, id)
    ensures EntryOf(win).Some? <==> Creates(win) > 0
    ensures EntryOf(win).Some? ==> EntryOf(win).value.meta.id == id
  {
    if win != [] {
      assert About(win[|win| - 1], id);
      EntryOfProper(win[..|win| - 1], id);
    }
  }

  lemma TakeCreateHolds(b: Buffers, win: seq<Action>, e: Entry, id: Id)
    requires Holds(b, win, id) && Creates(win) == 0 && e.meta.id == id
    ensures Holds(Process(b, Create(Some(e))), win + [Create(Some(e))], id)
  {
    var a := Create(Some(e));
    EntryOfProper(win, id);
    assert (win + [a])[..|win|] == win;
    PatchMerged(RowOf(e), win);
    assert Trimmed(win + [a]) == Trimmed(win);
  }

  lemma TakeUpdateHolds(b: Buffers, win: seq<Action>, f: Fields, id: Id)
    requires Holds(b, win, id) && f != map[] && Typed(Update(Some(id), f))
    ensures Holds(Process(b, Update(Some(id), f)), win + [Update(Some(id), f)], id)
  {
    var a := Update(Some(id), f);
    assert (win + [a])[..|win|] == win;
    if EntryOf(win).Some? {
      var e := EntryOf(win).value;
      PatchIsSet(Written(RowOf(e), Trimmed(win)), f);
      WrittenMore(RowOf(e), Trimmed(win), Update(Some(id), Strings(f)));
    } else if win == [] {
      assert map[] + f == f;
    }
  }

  lemma TakeOtherHolds(b: Buffers, win: seq<Action>, a: Action, id: Id)
    requires Holds(b, win, id) && !About(a, id)
    ensures Holds(Process(b, a), win, id)
  {
  }

  // --------------------------------------------------- flushing against the log

  lemma {:induction false} SequentialConcat(t: Table, a: seq<Action>, b: seq<Action>)
    ensures Sequential(t, a + b) == Sequential(Sequential(t, a), b)
    decreases |b|
  {
    if b == [] {
      assert a + b == a;
    } else {
      SequentialConcat(t, a, b[..|b| - 1]);
      assert (a + b)[..|a + b| - 1] == a + b[..|b| - 1];
    }
  }

  function AllWritten(rs: Rows, us: seq<Action>): Rows {
    map at | at in rs :: Written(rs[at], us)
  }

  lemma NothingWritten(rs: Rows)
    ensures AllWritten(rs, []) == rs
  {
    forall at | at in rs ensures AllWritten(rs, [])[at] == rs[at] {
    }
  }

  lemma AllWrittenMore(rs: Rows, us: seq<Action>, u: Action)
    requires u.Update?
    ensures AllWritten(rs, us + [u]) == WithFields(AllWritten(rs, us), u.fields)
  {
    forall at | at in rs ensures AllWritten(rs, us + [u])[at] == AllWritten(rs, us)[at].Set(u.fields) {
      WrittenMore(rs[at], us, u);
    }
  }

  /** A message's updates reach all its rows and no others. */
  lemma {:induction false} SequentialUpdates(t: Table, us: seq<Action>, id: Id)
    requires forall i :: 0 <= i < |us| ==> us[i].Update? && us[i].id == Some(id)
    ensures RowsAt(Sequential(t, us), id) == AllWritten(RowsAt(t, id), us)
  {
    if us == [] {
      NothingWritten(RowsAt(t, id));
    } else {
      var init, u := us[..|us| - 1], us[|us| - 1];
      SequentialUpdates(t, init, id);
      assert u.id == Some(id) && us == init + [u];
      AllWrittenMore(RowsAt(t, id), init, u);
    }
  }

  lemma {:induction false} TrimmedProper(win: seq<Action>, id: Id)
    requires Proper(win, id)
    ensures forall i :: 0 <= i < |Trimmed(win)| ==> Trimmed(win)[i].Update? && Trimmed(win)[i].id == Some(id)
  {
    if win != [] {
      assert About(win[|win| - 1], id);
      TrimmedProper(win[..|win| - 1], id);
    }
  }

  lemma {:induction false} OnlyUpdates(win: seq<Action>, id: Id)
    requires Proper(win, id) && EntryOf(win).None?
    ensures forall i :: 0 <= i < |win| ==> win[i].Update? && win[i].id == Some(id)
  {
    if win != [] {
      assert About(win[|win| - 1], id);
      OnlyUpdates(win[..|win| - 1], id);
    }
  }

  lemma FlushAt(t: Table, b: Buffers, id: Id)
    ensures var rs := if id in b.creates then WithRow(RowsAt(t, id), b.creates[id]) else RowsAt(t, id);
            RowsAt(Flushed(t, b), id) == if id in b.updates then WithFields(rs, b.updates[id]) else rs
  {
    assert WithFields(map[], map[]) == map[];
    assert forall f :: WithFields(map[], f) == map[];
  }

  lemma CommitUpdates(t: Table, win: seq<Action>, id: Id)
    requires Proper(win, id) && EntryOf(win).None?
    ensures RowsAt(Sequential(t, Commit(win)), id) == AllWritten(RowsAt(t, id), win)
  {
    OnlyUpdates(win, id);
    SequentialUpdates(t, win, id);
  }

  lemma CommitCreate(t: Table, win: seq<Action>, id: Id, e: Entry)
    requires Proper(win, id) && EntryOf(win) == Some(e) && RowsAt(t, id) == map[]
    ensures RowsAt(Sequential(t, Commit(win)), id) == map[e.meta.at := Written(RowOf(e), Trimmed(win))]
  {
    EntryOfProper(win, id);
    TrimmedProper(win, id);
    var c := [Create(Some(e))];
    assert c[..|c| - 1] == [];
    assert Sequential(t, c[..|c| - 1]) == t;
    var t' := Sequential(t, c);
    assert t' == InsertRow(t, RowOf(e));
    assert RowsAt(t', id) == map[e.meta.at := RowOf(e)];
    SequentialConcat(t, c, Trimmed(win));
    SequentialUpdates(t', Trimmed(win), id);
  }

  /** A flush writes of the message what committing its window one at a time
      would. */
  lemma FlushCommits(t: Table, t': Table, b: Buffers, win: seq<Action>, id: Id)
    requires Holds(b, win, id) && RowsAt(t, id) == RowsAt(t', id)
    requires EntryOf(win).Some? ==> RowsAt(t, id) == map[]
    ensures RowsAt(Flushed(t, b), id) == RowsAt(Sequential(t', Commit(win)), id)
  {
    FlushAt(t, b, id);
    var rs := RowsAt(t, id);
    match EntryOf(win) {
      case Some(e) =>
        CommitCreate(t', win, id, e);
        WrittenMeta(RowOf(e), Trimmed(win));
      case None =>
        CommitUpdates(t', win, id);
        if win == [] {
          NothingWritten(rs);
        } else {
          forall at | at in rs ensures rs[at].Set(Merged(win)) == Written(rs[at], win) {
            SetMerged(rs[at], win);
          }
        }
    }
  }

  lemma {:induction false} WrittenMeta(r: Row, actions: seq<Action>)
    ensures Written(r, actions).meta == r.meta
  {
    if actions != [] {
      WrittenMeta(r, actions[..|actions| - 1]);
    }
  }

  // -------------------------------------------------------------- counting creates

  function Tally(wins: seq<seq<Action>>): nat {
    if wins == [] then 0 else Tally(wins[..|wins| - 1]) + Creates(wins[|wins| - 1])
  }

  lemma {:induction false} TallySet(wins: seq<seq<Action>>, i: nat, win: seq<Action>)
    requires i < |wins|
    ensures Tally(wins[i := win]) == Tally(wins) - Creates(wins[i]) + Creates(win)
    ensures Creates(wins[i]) <= Tally(wins)
  {
    var last := |wins| - 1;
    if i == last {
      assert wins[i := win][..last] == wins[..last];
    } else {
      TallySet(wins[..last], i, win);
      assert wins[i := win][..last] == wins[..last][i := win];
    }
  }

  lemma {:induction false} TallyNothing(n: nat)
    ensures Tally(seq(n, _ => [])) == 0
  {
    if n > 0 {
      var wins: seq<seq<Action>> := seq(n, _ => []);
      TallyNothing(n - 1);
      assert wins[..n - 1] == seq(n - 1, _ => []);
      assert wins[n - 1] == [];
    }
  }

  lemma CreatesMore(actions: seq<Action>, a: Action)
    ensures Creates(actions + [a]) == Creates(actions) + if a.Create? then 1 else 0
  {
    assert (actions + [a])[..|actions|] == actions;
  }

  lemma {:induction false} TallyTaken(n: nat, steps: seq<Step>, id: Id)
    requires Within(n, steps)
    ensures var h := Watch(n, steps, id); Tally(h.windows) + Tally(h.log) == Creates(Taken(steps, id))
  {
    if steps == [] {
      TallyNothing(n);
    } else {
      var init, s := steps[..|steps| - 1], steps[|steps| - 1];
      var h := Watch(n, init, id);
      TallyTaken(n, init, id);
      match s
      case Take(w, a) =>
        if About(a, id) {
          TallySet(h.windows, w, h.windows[w] + [a]);
          CreatesMore(h.windows[w], a);
          CreatesMore(Taken(init, id), a);
        } else {
          assert Taken(steps, id) == Taken(init, id);
        }
      case Flush(w) =>
        TallySet(h.windows, w, []);
        assert (h.log + [h.windows[w]])[..|h.log|] == h.log;
        assert Taken(steps, id) == Taken(init, id);
    }
  }

  ghost predicate AllProper(wins: seq<seq<Action>>, id: Id) {
    forall i :: 0 <= i < |wins| ==> Proper(wins[i], id)
  }

  /** Without a committed create there is still no row. */
  lemma {:induction false} UncreatedAbsent(t: Table, log: seq<seq<Action>>, id: Id)
    requires AllProper(log, id) && Tally(log) == 0 && RowsAt(t, id) == map[]
    ensures RowsAt(Committed(t, log), id) == map[]
  {
    if log != [] {
      var init, win := log[..|log| - 1], log[|log| - 1];
      UncreatedAbsent(t, init, id);
      assert Proper(win, id);
      EntryOfProper(win, id);
      CommitUpdates(Committed(t, init), win, id);
    }
  }

  // ------------------------------------------------------------------ whole runs

  ghost predicate AllHold(writers: seq<Buffers>, windows: seq<seq<Action>>, id: Id) {
    && |writers| == |windows|
    && forall i :: 0 <= i < |windows| ==> Holds(writers[i], windows[i], id)
  }

  lemma HoldSet(writers: seq<Buffers>, windows: seq<seq<Action>>, i: nat, b: Buffers, win: seq<Action>, id: Id)
    requires AllHold(writers, windows, id) && i < |windows| && Holds(b, win, id)
    ensures AllHold(writers[i := b], windows[i := win], id)
  {
  }

  lemma ProperMore(log: seq<seq<Action>>, win: seq<Action>, id: Id)
    requires AllProper(log, id) && Proper(win, id)
    ensures AllProper(log + [win], id)
  {
  }

  ghost predicate Inv(t: Table, w: World, h: History, id: Id) {
    && AllHold(w.writers, h.windows, id)
    && AllProper(h.log, id)
    && RowsAt(w.table, id) == RowsAt(Committed(t, h.log), id)
  }

  lemma TakeKeeps(t: Table, w: World, h: History, i: nat, a: Action, id: Id)
    requires Inv(t, w, h, id) && i < |w.writers| && Typed(a)
    requires About(a, id) && a.Create? ==> Creates(h.windows[i]) == 0
    ensures Inv(t, Next(w, Step.Take(i, a)), Observe(h, Step.Take(i, a), id), id)
  {
    var b, win := w.writers[i], h.windows[i];
    if About(a, id) {
      if a.Create? {
        TakeCreateHolds(b, win, a.log.value, id);
      } else {
        TakeUpdateHolds(b, win, a.fields, id);
      }
      HoldSet(w.writers, h.windows, i, Process(b, a), win + [a], id);
    } else {
      TakeOtherHolds(b, win, a, id);
      HoldSet(w.writers, h.windows, i, Process(b, a), win, id);
      assert h.windows[i := win] == h.windows;
    }
  }

  lemma FlushKeeps(t: Table, w: World, h: History, i: nat, id: Id)
    requires Inv(t, w, h, id) && i < |w.writers|
    requires Creates(h.windows[i]) > 0 ==> Tally(h.log) == 0 && RowsAt(t, id) == map[]
    ensures Inv(t, Next(w, Flush(i)), Observe(h, Flush(i), id), id)
  {
    EmptyHolds(id);
    HoldSet(w.writers, h.windows, i, EMPTY, [], id);
    ProperMore(h.log, h.windows[i], id);
    FlushedRows(t, w.table, w.writers[i], h, i, id);
  }

  lemma FlushedRows(t: Table, table: Table, b: Buffers, h: History, i: nat, id: Id)
    requires i < |h.windows| && Holds(b, h.windows[i], id) && AllProper(h.log, id)
    requires RowsAt(table, id) == RowsAt(Committed(t, h.log), id)
    requires Creates(h.windows[i]) > 0 ==> Tally(h.log) == 0 && RowsAt(t, id) == map[]
    ensures RowsAt(Flushed(table, b), id) == RowsAt(Committed(t, h.log + [h.windows[i]]), id)
  {
    var win := h.windows[i];
    EntryOfProper(win, id);
    if Creates(win) > 0 {
      UncreatedAbsent(t, h.log, id);
    }
    FlushCommits(table, Committed(t, h.log), b, win, id);
    assert (h.log + [win])[..|h.log|] == h.log;
  }

  lemma TakenMore(steps: seq<Step>, id: Id)
    requires steps != []
    ensures Creates(Taken(steps[..|steps| - 1], id)) <= Creates(Taken(steps, id))
  {
    var init, s := steps[..|steps| - 1], steps[|steps| - 1];
    if s.Take? && About(s.action, id) {
      CreatesMore(Taken(init, id), s.action);
    } else {
      assert Taken(steps, id) == Taken(init, id);
    }
  }

  /** Every run of any number of writers leaves, of each message, the rows the
      plain log leaves when its windows are committed in flush order. */
  lemma {:induction false} RunCommits(t: Table, n: nat, steps: seq<Step>, id: Id)
    requires Within(n, steps) && AllTyped(steps) && CreatedOnce(t, steps, id)
    ensures Inv(t, Exec(World(t, seq(n, _ => EMPTY)), steps), Watch(n, steps, id), id)
  {
    if steps == [] {
      EmptyHolds(id);
    } else {
      var init, s := steps[..|steps| - 1], steps[|steps| - 1];
      TakenMore(steps, id);
      RunCommits(t, n, init, id);
      TallyTaken(n, init, id);
      var w, h := Exec(World(t, seq(n, _ => EMPTY)), init), Watch(n, init, id);
      TallySet(h.windows, s.w, []);
      match s
      case Take(i, a) =>
        if About(a, id) {
          CreatesMore(Taken(init, id), a);
        }
        TakeKeeps(t, w, h, i, a, id);
      case Flush(i) =>
        FlushKeeps(t, w, h, i, id);
    }
  }

  // ------------------------------------------------------------- the row, exactly

  lemma {:induction false} WrittenConcat(r: Row, a: seq<Action>, b: seq<Action>)
    ensures Written(r, a + b) == Written(Written(r, a), b)
    decreases |b|
  {
    if b == [] {
      assert a + b == a;
    } else {
      WrittenConcat(r, a, b[..|b| - 1]);
      assert (a + b)[..|a + b| - 1] == a + b[..|b| - 1];
    }
  }

  lemma FlattenLast(log: seq<seq<Action>>)
    requires log != []
    ensures Flatten(log) == Flatten(log[..|log| - 1]) + log[|log| - 1]
  {
    var init, last := log[..|log| - 1], log[|log| - 1];
    assert log == init + [last];
    FlattenOne(init, last);
  }

  lemma TallyInit(log: seq<seq<Action>>, k: nat)
    requires k < |log| - 1
    ensures Tally(log[..|log| - 1]) >= Creates(log[k])
  {
    TallySet(log[..|log| - 1], k, []);
  }

  lemma CommitLater(t: Table, win: seq<Action>, id: Id, at: int, r: Row)
    requires RowsAt(t, id) == map[at := r] && Proper(win, id) && Creates(win) == 0
    ensures RowsAt(Sequential(t, Commit(win)), id) == map[at := Written(r, win)]
  {
    EntryOfProper(win, id);
    CommitUpdates(t, win, id);
  }

  ghost function FinalRow(e: Entry, log: seq<seq<Action>>, k: nat): Row
    requires k < |log|
  {
    Written(Written(RowOf(e), Trimmed(log[k])), Flatten(log[k + 1..]))
  }

  lemma FinalRowMore(e: Entry, log: seq<seq<Action>>, k: nat)
    requires k < |log| - 1
    ensures FinalRow(e, log, k) == Written(FinalRow(e, log[..|log| - 1], k), log[|log| - 1])
  {
    var init, rest := log[..|log| - 1], log[k + 1..];
    assert rest[..|rest| - 1] == init[k + 1..];
    FlattenLast(rest);
    WrittenConcat(Written(RowOf(e), Trimmed(log[k])), Flatten(init[k + 1..]), log[|log| - 1]);
  }

  lemma FinalRowFirst(e: Entry, log: seq<seq<Action>>, k: nat)
    requires k == |log| - 1
    ensures FinalRow(e, log, k) == Written(RowOf(e), Trimmed(log[k]))
  {
    assert log[k + 1..] == [];
  }

  /** A committed log with its create in window k. */
  lemma {:induction false} CommittedRow(t: Table, log: seq<seq<Action>>, id: Id, k: nat, e: Entry)
    requires AllProper(log, id) && Tally(log) == 1 && RowsAt(t, id) == map[]
    requires k < |log| && EntryOf(log[k]) == Some(e)
    ensures RowsAt(Committed(t, log), id) == map[e.meta.at := FinalRow(e, log, k)]
  {
    var init, last := log[..|log| - 1], log[|log| - 1];
    assert Proper(log[k], id);
    EntryOfProper(log[k], id);
    if k == |log| - 1 {
      UncreatedAbsent(t, init, id);
      CommitCreate(Committed(t, init), last, id, e);
      FinalRowFirst(e, log, k);
    } else {
      TallyInit(log, k);
      CommittedRow(t, init, id, k, e);
      CommitLater(Committed(t, init), last, id, e.meta.at, FinalRow(e, init, k));
      FinalRowMore(e, log, k);
    }
  }

  /** The message's row after any run: the create, the pending columns of the
      updates flushed with it, and all columns of those flushed later.  Updates
      flushed before it are gone. */
  lemma RowExactly(t: Table, n: nat, steps: seq<Step>, id: Id, k: nat, e: Entry)
    requires Within(n, steps) && AllTyped(steps) && CreatedOnce(t, steps, id)
    requires var log := Watch(n, steps, id).log; k < |log| && EntryOf(log[k]) == Some(e)
    ensures var log := Watch(n, steps, id).log;
            RowsAt(Exec(World(t, seq(n, _ => EMPTY)), steps).table, id) ==
              map[e.meta.at := FinalRow(e, log, k)]
  {
    var log := Watch(n, steps, id).log;
    RunCommits(t, n, steps, id);
    TallyTaken(n, steps, id);
    TallySet(log, k, []);
    assert Proper(log[k], id);
    EntryOfProper(log[k], id);
    CommittedRow(t, log, id, k, e);
  }

  // ------------------------------------------------------- which updates survive

  /** Columns that a create keeps of the updates that meet it. */
  predicate Kept(c: Column) {
    c == Status || c == SmppId || c == CounterHex
  }

  ghost predicate Names(a: Action, c: Column) {
    a.Update? && c in a.fields
  }

  ghost predicate Silent(win: seq<Action>, c: Column) {
    forall i :: 0 <= i < |win| ==> !Names(win[i], c)
  }

  lemma {:induction false} SilentKeeps(r: Row, win: seq<Action>, c: Column)
    requires Silent(win, c)
    ensures ValueAt(Written(r, win), c) == ValueAt(r, c)
    ensures ValueAt(Written(r, Trimmed(win)), c) == ValueAt(r, c)
  {
    if win != [] {
      var init, a := win[..|win| - 1], win[|win| - 1];
      SilentKeeps(r, init, c);
      assert !Names(a, c);
      TrimmedMore(r, init, a);
    }
  }

  lemma TrimmedMore(r: Row, win: seq<Action>, a: Action)
    ensures Written(r, Trimmed(win + [a])) ==
              if a.Update? then Written(r, Trimmed(win)).Patch(a.fields) else Written(r, Trimmed(win))
  {
    assert (win + [a])[..|win|] == win;
    if a.Update? {
      PatchIsSet(Written(r, Trimmed(win)), a.fields);
      WrittenMore(r, Trimmed(win), Update(a.id, Strings(a.fields)));
    } else {
      assert Trimmed(win + [a]) == Trimmed(win);
    }
  }

  /** The only action of a window that names the column decides it. */
  lemma {:induction false} NamedLands(r: Row, win: seq<Action>, m: nat, c: Column)
    requires m < |win| && Names(win[m], c) && Typed(win[m]) && !c.Unknown?
    requires forall i :: 0 <= i < |win| && Names(win[i], c) ==> i == m
    ensures ValueAt(Written(r, win), c) == Some(win[m].fields[c])
    ensures ValueAt(Written(r, Trimmed(win)), c) == if c.Tracked() then Some(win[m].fields[c]) else ValueAt(r, c)
  {
    var init, a := win[..|win| - 1], win[|win| - 1];
    assert win == init + [a];
    TrimmedMore(r, init, a);
    if m == |win| - 1 {
      SilentKeeps(r, init, c);
    } else {
      NamedLands(r, init, m, c);
      assert !Names(a, c);
    }
  }

  lemma {:induction false} SilentLog(r: Row, log: seq<seq<Action>>, c: Column)
    requires forall i :: 0 <= i < |log| ==> Silent(log[i], c)
    ensures ValueAt(Written(r, Flatten(log)), c) == ValueAt(r, c)
  {
    if log != [] {
      var init, last := log[..|log| - 1], log[|log| - 1];
      SilentLog(r, init, c);
      FlattenLast(log);
      WrittenConcat(r, Flatten(init), last);
      SilentKeeps(Written(r, Flatten(init)), last, c);
    }
  }

  /** Action m of window j is the only one to name the column. */
  ghost predicate OnlyNamer(log: seq<seq<Action>>, j: nat, m: nat, c: Column) {
    && j < |log| && m < |log[j]| && Names(log[j][m], c) && Typed(log[j][m]) && !c.Unknown?
    && (forall i :: 0 <= i < |log| && i != j ==> Silent(log[i], c))
    && (forall i :: 0 <= i < |log[j]| && Names(log[j][i], c) ==> i == m)
  }

  lemma NamedLog(r: Row, log: seq<seq<Action>>, j: nat, m: nat, c: Column)
    requires OnlyNamer(log, j, m, c)
    ensures ValueAt(Written(r, Flatten(log)), c) == Some(log[j][m].fields[c])
  {
    var a, b := log[..j], log[j + 1..];
    assert log == (a + [log[j]]) + b;
    FlattenConcat(a + [log[j]], b);
    FlattenOne(a, log[j]);
    var r1 := Written(r, Flatten(a));
    WrittenConcat(r, Flatten(a), log[j]);
    WrittenConcat(r, Flatten(a) + log[j], Flatten(b));
    NamedLands(r1, log[j], m, c);
    SilentLog(Written(r1, log[j]), b, c);
  }

  lemma ShowsExactly(e: Entry, log: seq<seq<Action>>, k: nat, j: nat, m: nat, c: Column)
    requires k < |log| && OnlyNamer(log, j, m, c)
    ensures ValueAt(FinalRow(e, log, k), c) ==
              if j > k || (j == k && c.Tracked()) then Some(log[j][m].fields[c]) else ValueAt(RowOf(e), c)
  {
    var r, rest := Written(RowOf(e), Trimmed(log[k])), log[k + 1..];
    if j > k {
      assert rest[j - k - 1] == log[j];
      NamedLog(r, rest, j - k - 1, m, c);
    } else {
      SilentLog(r, rest, c);
      if j == k {
        NamedLands(RowOf(e), log[k], m, c);
      } else {
        SilentKeeps(RowOf(e), log[k], c);
      }
    }
  }

  /** The value the last update among the actions gives the column. */
  function LastNamed(actions: seq<Action>, c: Column): Option<Value> {
    if actions == [] then None
    else
      var a := actions[|actions| - 1];
      if a.Update? && c in a.fields then Some(a.fields[c]) else LastNamed(actions[..|actions| - 1], c)
  }

  lemma {:induction false} WrittenLast(r: Row, actions: seq<Action>, c: Column)
    ensures ValueAt(Written(r, actions), c) ==
              if LastNamed(actions, c).Some? && !c.Unknown? then LastNamed(actions, c) else ValueAt(r, c)
  {
    if actions != [] {
      WrittenLast(r, actions[..|actions| - 1], c);
    }
  }

  lemma PatchShows(r: Row, a: Action, c: Column)
    requires a.Update? && Typed(a)
    ensures ValueAt(r.Patch(a.fields), c) == if c in a.fields && Kept(c) then Some(a.fields[c]) else ValueAt(r, c)
  {
  }

  /** Of updates that meet their create, three columns count. */
  lemma {:induction false} TrimmedLast(r: Row, win: seq<Action>, id: Id, c: Column)
    requires Proper(win, id)
    ensures ValueAt(Written(r, Trimmed(win)), c) ==
              if LastNamed(win, c).Some? && Kept(c) then LastNamed(win, c) else ValueAt(r, c)
  {
    if win != [] {
      var init, a := win[..|win| - 1], win[|win| - 1];
      assert win == init + [a];
      assert Typed(a);
      TrimmedLast(r, init, id, c);
      TrimmedMore(r, init, a);
      if a.Update? {
        PatchShows(Written(r, Trimmed(init)), a, c);
      }
    }
  }

  /** Every column of the message's row after any run: the last value sent in a
      window flushed after the create's; else, for status, SMPP id and counter, the
      last one sent in the create's own window; else what the entry says. */
  lemma ColumnsExactly(t: Table, n: nat, steps: seq<Step>, id: Id, k: nat, e: Entry, c: Column)
    requires Within(n, steps) && AllTyped(steps) && CreatedOnce(t, steps, id)
    requires var log := Watch(n, steps, id).log; k < |log| && EntryOf(log[k]) == Some(e)
    ensures var rows, log := RowsAt(Exec(World(t, seq(n, _ => EMPTY)), steps).table, id), Watch(n, steps, id).log;
            var later, own := LastNamed(Flatten(log[k + 1..]), c), LastNamed(log[k], c);
            && rows.Keys == {e.meta.at} && rows[e.meta.at].meta == e.meta
            && ValueAt(rows[e.meta.at], c) ==
                 if later.Some? && !c.Unknown? then later
                 else if own.Some? && Kept(c) then own
                 else Recorded(e, c)
  {
    var log := Watch(n, steps, id).log;
    RowExactly(t, n, steps, id, k, e);
    RunCommits(t, n, steps, id);
    assert Proper(log[k], id);
    var r := Written(RowOf(e), Trimmed(log[k]));
    WrittenLast(r, Flatten(log[k + 1..]), c);
    TrimmedLast(RowOf(e), log[k], id, c);
    CreatedRecords(e, c);
    WrittenMeta(r, Flatten(log[k + 1..]));
    WrittenMeta(RowOf(e), Trimmed(log[k]));
  }

  /** The one update that names a column shows in the row exactly when it was
      flushed after the create, or together with it and the column is one a
      pending create keeps. */
  lemma UpdateSurvivesExactly(
    t: Table, n: nat, steps: seq<Step>, id: Id, k: nat, e: Entry, j: nat, m: nat, c: Column)
    requires Within(n, steps) && AllTyped(steps) && CreatedOnce(t, steps, id)
    requires var log := Watch(n, steps, id).log;
             && k < |log| && EntryOf(log[k]) == Some(e) && OnlyNamer(log, j, m, c)
             && Recorded(e, c) != Some(log[j][m].fields[c])
    ensures var rows := RowsAt(Exec(World(t, seq(n, _ => EMPTY)), steps).table, id);
            e.meta.at in rows &&
            (ValueAt(rows[e.meta.at], c) == Some(Watch(n, steps, id).log[j][m].fields[c]) <==>
             j > k || (j == k && Kept(c)))
  {
    CreatedRecords(e, c);
    RowExactly(t, n, steps, id, k, e);
    ShowsExactly(e, Watch(n, steps, id).log, k, j, m, c);
  }

  // --------------------------------------------------------------- channel order

  /** All the message's actions go to one writer. */
  ghost predicate TakenBy(steps: seq<Step>, id: Id, w: nat) {
    forall i :: 0 <= i < |steps| && steps[i].Take? && About(steps[i].action, id) ==> steps[i].w == w
  }

  ghost predicate CreateFirst(actions: seq<Action>) {
    forall i :: 0 < i < |actions| ==> actions[i].Update?
  }

  /** The rows as far as the columns of a pending create go. */
  function Seen(rs: Rows): Rows {
    map at | at in rs :: Row(rs[at].meta, Strings(rs[at].cols))
  }

  lemma {:induction false} OneWriterOrder(n: nat, steps: seq<Step>, id: Id, w: nat)
    requires Within(n, steps) && TakenBy(steps, id, w) && w < n
    ensures var h := Watch(n, steps, id);
            && Flatten(h.log) + h.windows[w] == Taken(steps, id)
            && forall i :: 0 <= i < n && i != w ==> h.windows[i] == []
  {
    if steps != [] {
      var init, s := steps[..|steps| - 1], steps[|steps| - 1];
      OneWriterOrder(n, init, id, w);
      var h := Watch(n, init, id);
      if s.Flush? {
        FlattenOne(h.log, h.windows[s.w]);
      }
    }
  }

  lemma StringsSet(r: Row, u: Fields)
    requires forall c :: c in u && c.Tracked() ==> u[c].Str?
    ensures Strings(r.Set(u).cols) == Strings(r.cols) + Strings(u)
  {
  }

  /** Trimming the updates does not show in the columns a create keeps. */
  lemma {:induction false} TrimmedSeen(r: Row, q: Row, win: seq<Action>)
    requires forall i :: 0 <= i < |win| ==> Typed(win[i])
    requires Strings(r.cols) == Strings(q.cols)
    ensures Strings(Written(r, win).cols) == Strings(Written(q, win).cols) == Strings(Written(q, Trimmed(win)).cols)
  {
    if win != [] {
      var init, a := win[..|win| - 1], win[|win| - 1];
      assert win == init + [a];
      TrimmedSeen(r, q, init);
      TrimmedMore(q, init, a);
      if a.Update? {
        var f := a.fields;
        PatchIsSet(Written(q, Trimmed(init)), f);
        assert Strings(Strings(f)) == Strings(f);
        StringsSet(Written(r, init), f);
        StringsSet(Written(q, init), f);
        StringsSet(Written(q, Trimmed(init)), Strings(f));
      }
    }
  }

  lemma AllWrittenSeen(rs: Rows, qs: Rows, win: seq<Action>)
    requires forall i :: 0 <= i < |win| ==> Typed(win[i])
    requires Seen(rs) == Seen(qs)
    ensures Seen(AllWritten(rs, win)) == Seen(AllWritten(qs, win))
  {
    assert rs.Keys == Seen(rs).Keys == Seen(qs).Keys == qs.Keys;
    forall at | at in rs ensures Seen(AllWritten(rs, win))[at] == Seen(AllWritten(qs, win))[at] {
      assert Seen(rs)[at] == Seen(qs)[at];
      TrimmedSeen(rs[at], qs[at], win);
      WrittenMeta(rs[at], win);
      WrittenMeta(qs[at], win);
    }
  }

  lemma SequentialCreate(t: Table, win: seq<Action>, id: Id, e: Entry)
    requires Proper(win, id) && CreateFirst(win) && EntryOf(win) == Some(e) && RowsAt(t, id) == map[]
    ensures RowsAt(Sequential(t, win), id) == map[e.meta.at := Written(RowOf(e), win)]
  {
    EntryOfProper(win, id);
    FirstEntry(win, id);
    var us := win[1..];
    assert win == [Create(Some(e))] + us;
    SequentialConcat(t, [Create(Some(e))], us);
    CreateAlone(t, id, e);
    forall i | 0 <= i < |us| ensures us[i].Update? && us[i].id == Some(id) {
      assert us[i] == win[i + 1];
    }
    SequentialUpdates(Sequential(t, [Create(Some(e))]), us, id);
    WrittenConcat(RowOf(e), [Create(Some(e))], us);
  }

  lemma CreateAlone(t: Table, id: Id, e: Entry)
    requires RowsAt(t, id) == map[] && e.meta.id == id
    ensures RowsAt(Sequential(t, [Create(Some(e))]), id) == map[e.meta.at := RowOf(e)]
    ensures Written(RowOf(e), [Create(Some(e))]) == RowOf(e)
  {
    var c := [Create(Some(e))];
    assert c[..|c| - 1] == [];
    assert Sequential(t, c[..|c| - 1]) == t;
    assert Written(RowOf(e), c) == Written(RowOf(e), c[..|c| - 1]);
  }

  lemma {:induction false} FirstEntry(win: seq<Action>, id: Id)
    requires Proper(win, id) && CreateFirst(win) && EntryOf(win).Some?
    ensures win[0] == Create(EntryOf(win))
  {
    if |win| > 1 {
      assert win[|win| - 1].Update?;
      FirstEntry(win[..|win| - 1], id);
    }
  }

  lemma CreateSeen(t: Table, q: Table, win: seq<Action>, id: Id, e: Entry)
    requires Proper(win, id) && EntryOf(win) == Some(e) && CreateFirst(win)
    requires RowsAt(t, id) == map[] == RowsAt(q, id)
    ensures Seen(RowsAt(Sequential(t, Commit(win)), id)) == Seen(RowsAt(Sequential(q, win), id))
  {
    CommitCreate(t, win, id, e);
    SequentialCreate(q, win, id, e);
    TrimmedSeen(RowOf(e), RowOf(e), win);
    WrittenMeta(RowOf(e), win);
    WrittenMeta(RowOf(e), Trimmed(win));
  }

  lemma UpdatesSeen(t: Table, q: Table, win: seq<Action>, id: Id)
    requires Proper(win, id) && EntryOf(win).None? && Seen(RowsAt(t, id)) == Seen(RowsAt(q, id))
    ensures Seen(RowsAt(Sequential(t, Commit(win)), id)) == Seen(RowsAt(Sequential(q, win), id))
  {
    CommitUpdates(t, win, id);
    CommitUpdates(q, win, id);
    AllWrittenSeen(RowsAt(t, id), RowsAt(q, id), win);
  }

  /** Committing one more window, on tables that look the same. */
  lemma CommitSeen(t: Table, q: Table, win: seq<Action>, id: Id)
    requires Proper(win, id) && Seen(RowsAt(t, id)) == Seen(RowsAt(q, id))
    requires Creates(win) > 0 ==> CreateFirst(win) && RowsAt(t, id) == map[] == RowsAt(q, id)
    ensures Seen(RowsAt(Sequential(t, Commit(win)), id)) == Seen(RowsAt(Sequential(q, win), id))
  {
    EntryOfProper(win, id);
    if EntryOf(win).None? {
      UpdatesSeen(t, q, win, id);
    } else {
      CreateSeen(t, q, win, id, EntryOf(win).value);
    }
  }

  lemma CreateFirstParts(a: seq<Action>, b: seq<Action>)
    requires CreateFirst(a + b)
    ensures CreateFirst(a) && CreateFirst(b)
    ensures Creates(b) > 0 ==> a == []
  {
    assert forall i :: 0 <= i < |a| ==> (a + b)[i] == a[i];
    assert forall i :: 0 <= i < |b| ==> (a + b)[|a| + i] == b[i];
    if a != [] {
      NoCreates(b);
    }
  }

  lemma {:induction false} NoCreates(b: seq<Action>)
    requires forall i :: 0 <= i < |b| ==> b[i].Update?
    ensures Creates(b) == 0
  {
    if b != [] {
      NoCreates(b[..|b| - 1]);
    }
  }

  lemma {:induction false} CommittedSeen(t: Table, log: seq<seq<Action>>, id: Id)
    requires AllProper(log, id) && CreateFirst(Flatten(log))
    requires Tally(log) == 0 || (Tally(log) == 1 && RowsAt(t, id) == map[])
    ensures Seen(RowsAt(Committed(t, log), id)) == Seen(RowsAt(Sequential(t, Flatten(log)), id))
  {
    if log != [] {
      var init, last := log[..|log| - 1], log[|log| - 1];
      FlattenLast(log);
      CreateFirstParts(Flatten(init), last);
      CommittedSeen(t, init, id);
      SequentialConcat(t, Flatten(init), last);
      if Creates(last) > 0 {
        UncreatedAbsent(t, init, id);
      }
      CommitSeen(Committed(t, init), Sequential(t, Flatten(init)), last, id);
    }
  }

  /** With the message's actions in one writer, its create ahead of its updates
      and everything flushed, where the flushes fell does not show: status,
      SMPP id and counter are those of the plain log. */
  lemma ChannelOrder(t: Table, n: nat, steps: seq<Step>, id: Id, w: nat)
    requires Within(n, steps) && AllTyped(steps) && CreatedOnce(t, steps, id)
    requires w < n && TakenBy(steps, id, w) && CreateFirst(Taken(steps, id))
    requires Watch(n, steps, id).windows[w] == []
    ensures Seen(RowsAt(Exec(World(t, seq(n, _ => EMPTY)), steps).table, id)) ==
            Seen(RowsAt(Sequential(t, Taken(steps, id)), id))
    ensures forall at, c, text :: Kept(c) ==>
              (Holding(RowsAt(Exec(World(t, seq(n, _ => EMPTY)), steps).table, id), at, c, text) <==>
               Holding(RowsAt(Sequential(t, Taken(steps, id)), id), at, c, text))
  {
    var h := Watch(n, steps, id);
    RunCommits(t, n, steps, id);
    OneWriterOrder(n, steps, id, w);
    assert Flatten(h.log) + [] == Flatten(h.log);
    TallyTaken(n, steps, id);
    CommittedSeen(t, h.log, id);
    SeenTells(RowsAt(Exec(World(t, seq(n, _ => EMPTY)), steps).table, id), RowsAt(Sequential(t, Taken(steps, id)), id));
  }

  /** The row of that time holds the text in the column. */
  predicate Holding(rs: Rows, at: int, c: Column, text: string) {
    at in rs && ValueAt(rs[at], c) == Some(Str(text))
  }

  lemma SeenTells(a: Rows, b: Rows)
    requires Seen(a) == Seen(b)
    ensures forall at, c, text :: Kept(c) ==>
              (Holding(a, at, c, text) <==> Holding(b, at, c, text))
  {
    forall at, c, text | Kept(c)
      ensures Holding(a, at, c, text) <==> Holding(b, at, c, text)
    {
      SeenHolds(a, at, c, text);
      SeenHolds(b, at, c, text);
    }
  }

  lemma SeenHolds(rs: Rows, at: int, c: Column, text: string)
    requires Kept(c)
    ensures Holding(rs, at, c, text) <==> Holding(Seen(rs), at, c, text)
  {
  }

  // ------------------------------------------------------------- where it fails

  lemma WatchMore(n: nat, steps: seq<Step>, s: Step, id: Id)
    requires Within(n, steps) && s.w < n
    ensures Within(n, steps + [s])
    ensures Watch(n, steps + [s], id) == Observe(Watch(n, steps, id), s, id)
    ensures Taken(steps + [s], id) == Taken(steps, id) + if s.Take? && About(s.action, id) then [s.action] else []
  {
    assert (steps + [s])[..|steps|] == steps;
  }

  /** The column when create and update are written as they arrive. */
  function Plain(e: Entry, u: Action, c: Column): Option<Value> {
    var rows := RowsAt(Sequential(map[], [Create(Some(e)), u]), e.meta.id);
    if e.meta.at in rows then ValueAt(rows[e.meta.at], c) else None
  }

  lemma PlainShows(e: Entry, u: Action, c: Column)
    requires About(u, e.meta.id) && Typed(u) && Names(u, c) && !c.Unknown?
    ensures Plain(e, u, c) == Some(u.fields[c])
  {
    var win := [Create(Some(e)), u];
    assert win[..1] == [Create(Some(e))];
    SequentialCreate(map[], win, e.meta.id, e);
    NamedLands(RowOf(e), win, 1, c);
  }

  /** Two writers: the update is flushed before the create it belongs to. */
  function Overtaken(c: Action, u: Action): seq<Step> {
    ((([] + [Step.Take(0, c)]) + [Step.Take(1, u)]) + [Flush(1)]) + [Flush(0)]
  }

  lemma OvertakenWatch(c: Action, u: Action, id: Id)
    requires About(c, id) && About(u, id)
    ensures Within(2, Overtaken(c, u))
    ensures Watch(2, Overtaken(c, u), id).log == [[u], [c]] && Taken(Overtaken(c, u), id) == [c, u]
  {
    var s1 := [] + [Step.Take(0, c)];
    var s2 := s1 + [Step.Take(1, u)];
    var s3 := s2 + [Flush(1)];
    WatchMore(2, [], Step.Take(0, c), id);
    WatchMore(2, s1, Step.Take(1, u), id);
    WatchMore(2, s2, Flush(1), id);
    WatchMore(2, s3, Flush(0), id);
    assert Watch(2, [], id).windows == [[], []] && [] + [c] == [c] && [] + [u] == [u];
    assert Watch(2, s1, id).windows == [[c], []];
    assert Watch(2, s2, id).windows == [[c], [u]];
    assert Watch(2, s3, id) == History([[c], []], [[u]]);
  }

  /** The column in the message's row after a run from an empty table. */
  function Stored(n: nat, steps: seq<Step>, m: Meta, c: Column): Option<Value>
    requires Within(n, steps)
  {
    var rows := RowsAt(Exec(World(map[], seq(n, _ => EMPTY)), steps).table, m.id);
    if m.at in rows then ValueAt(rows[m.at], c) else None
  }

  /** Without affinity a status update that arrives after its create can be
      lost: the channel order alone does not decide the row. */
  lemma OvertakenLost(e: Entry, status: string)
    requires status != e.status
    ensures var c, u := Create(Some(e)), Update(Some(e.meta.id), map[Status := Str(status)]);
            && Within(2, Overtaken(c, u)) && Taken(Overtaken(c, u), e.meta.id) == [c, u]
            && Plain(e, u, Status) == Some(Str(status)) != Stored(2, Overtaken(c, u), e.meta, Status)
  {
    var c, u, id := Create(Some(e)), Update(Some(e.meta.id), map[Status := Str(status)]), e.meta.id;
    assert Status in u.fields;
    OvertakenWatch(c, u, id);
    PlainShows(e, u, Status);
    CreatesOfTwo(c, u);
    UpdateSurvivesExactly(map[], 2, Overtaken(c, u), id, 1, e, 0, 0, Status);
  }

  lemma CreatesOfTwo(c: Action, u: Action)
    ensures Creates([c, u]) == (if c.Create? then 1 else 0) + if u.Create? then 1 else 0
  {
    CreatesMore([c], u);
    CreatesMore([], c);
    assert [c] + [u] == [c, u] && [] + [c] == [c];
  }

  /** One writer: the update is taken while the create is pending. */
  function Merging(c: Action, u: Action): seq<Step> {
    (([] + [Step.Take(0, c)]) + [Step.Take(0, u)]) + [Flush(0)]
  }

  lemma MergingWatch(c: Action, u: Action, id: Id)
    requires About(c, id) && About(u, id)
    ensures Within(1, Merging(c, u))
    ensures Watch(1, Merging(c, u), id).log == [[c, u]] && Taken(Merging(c, u), id) == [c, u]
  {
    var s1 := [] + [Step.Take(0, c)];
    var s2 := s1 + [Step.Take(0, u)];
    WatchMore(1, [], Step.Take(0, c), id);
    WatchMore(1, s1, Step.Take(0, u), id);
    WatchMore(1, s2, Flush(0), id);
    assert Watch(1, [], id).windows == [[]] && [] + [c] == [c] && [c] + [u] == [c, u];
    assert Watch(1, s1, id).windows == [[c]];
  }

  /** A lone update taken while its create is pending shows just in the columns
      a create keeps. */
  lemma MergingShows(e: Entry, u: Action, c: Column)
    requires About(u, e.meta.id) && Typed(u) && u.Update? && c in u.fields && !c.Unknown?
    ensures var a := Create(Some(e));
            && Within(1, Merging(a, u)) && Taken(Merging(a, u), e.meta.id) == [a, u]
            && Stored(1, Merging(a, u), e.meta, c) ==
                 if Kept(c) then Some(u.fields[c]) else Recorded(e, c)
  {
    var a, id := Create(Some(e)), e.meta.id;
    MergingWatch(a, u, id);
    MergingRow(e, u);
    MergedShows(e, u, c);
  }

  lemma EntryOfTwo(e: Entry, u: Action)
    requires u.Update?
    ensures EntryOf([Create(Some(e)), u]) == Some(e)
  {
    assert [Create(Some(e)), u][..1] == [Create(Some(e))] && EntryOf([Create(Some(e))]) == Some(e);
  }

  lemma MergingRow(e: Entry, u: Action)
    requires About(u, e.meta.id) && Typed(u) && u.Update?
    ensures var a := Create(Some(e));
            && Within(1, Merging(a, u))
            && RowsAt(Exec(World(map[], seq(1, _ => EMPTY)), Merging(a, u)).table, e.meta.id) ==
                 map[e.meta.at := FinalRow(e, [[a, u]], 0)]
  {
    var a, id := Create(Some(e)), e.meta.id;
    MergingWatch(a, u, id);
    CreatesOfTwo(a, u);
    EntryOfTwo(e, u);
    RowExactly(map[], 1, Merging(a, u), id, 0, e);
  }

  lemma MergedShows(e: Entry, u: Action, c: Column)
    requires Typed(u) && u.Update? && c in u.fields && !c.Unknown?
    ensures ValueAt(FinalRow(e, [[Create(Some(e)), u]], 0), c) ==
              if Kept(c) then Some(u.fields[c]) else Recorded(e, c)
  {
    CreatedRecords(e, c);
    ShowsExactly(e, [[Create(Some(e)), u]], 0, 0, 1, c);
  }

  /** A delivery status that meets its create in the buffer is dropped. */
  lemma ReceiptDropped(e: Entry, v: Value)
    ensures var c, u := Create(Some(e)), Update(Some(e.meta.id), map[DlrStatus := v]);
            && Within(1, Merging(c, u)) && Taken(Merging(c, u), e.meta.id) == [c, u]
            && Plain(e, u, DlrStatus) == Some(v) && Stored(1, Merging(c, u), e.meta, DlrStatus) == None
  {
    var u := Update(Some(e.meta.id), map[DlrStatus := v]);
    assert DlrStatus in u.fields;
    PlainShows(e, u, DlrStatus);
    MergingShows(e, u, DlrStatus);
  }
}
