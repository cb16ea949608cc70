/** Any number of batched writers against the writer that handles one change
    at a time: the newest row of each card, and the counters. */
module CardStateSchedules {
  import opened Common
  import opened CardStates

  /** Batches in the order their writes reach the database, whichever writer
      they come from. */
  function WriteBatches(db: Db, bs: seq<seq<Change>>): Db {
    if bs == [] then db else WriteBatch(WriteBatches(db, bs[..|bs| - 1]), bs[|bs| - 1])
  }

  /** Each change of the log written on its own. */
  function Singles(es: seq<Change>): seq<seq<Change>> {
    seq(|es|, i requires 0 <= i < |es| => [es[i]])
  }

  lemma {:induction false} FlattenSingles(es: seq<Change>)
    ensures Flatten(Singles(es)) == es
  {
    if es != [] {
      FlattenSingles(es[1..]);
      assert Singles(es)[1..] == Singles(es[1..]);
    }
  }

  // ----------------------------------------------------- the newest row per card

  datatype Head = Head(transition: int, row: Row)

  ghost predicate IsHead(t: Table, k: CardKey, h: Option<Head>) {
    match h
    case None => forall q :: q in t ==> q.Owner() != k
    case Some(x) =>
      && Key(k.card, k.campaign, x.transition) in t
      && t[Key(k.card, k.campaign, x.transition)] == x.row
      && forall q :: q in t && q.Owner() == k ==> q.transition <= x.transition
  }

  lemma {:induction false} HeadExists(t: Table, k: CardKey)
    ensures exists h :: IsHead(t, k, h)
    decreases |t.Keys|
  {
    if q :| q in t && q.Owner() == k {
      var rest := t - {q};
      assert |rest.Keys| < |t.Keys| by {
        assert rest.Keys == t.Keys - {q};
      }
      HeadExists(rest, k);
      var h :| IsHead(rest, k, h);
      if h.None? || h.value.transition < q.transition {
        assert IsHead(t, k, Some(Head(q.transition, t[q])));
      } else {
        assert IsHead(t, k, h);
      }
    } else {
      assert IsHead(t, k, None);
    }
  }

  /** SELECT DISTINCT ON (card_id) ... ORDER BY transition_seq DESC, one card of it. */
  ghost function HeadOf(t: Table, k: CardKey): (h: Option<Head>)
    ensures IsHead(t, k, h)
  {
    HeadExists(t, k);
    var h :| IsHead(t, k, h);
    h
  }

  // --------------------------------------------------------- tables only grow

  ghost predicate Kept(t: Table, t': Table) {
    forall q :: q in t ==> q in t' && t'[q] == t[q]
  }

  ghost predicate Sourced(t: Table, t': Table, es: seq<Change>) {
    forall q :: q in t' && q !in t ==> exists e :: e in es && e.RowKey() == q && e.ToRow() == t'[q]
  }

  ghost predicate Covered(t': Table, es: seq<Change>) {
    forall e :: e in es ==> exists q :: q in t' && q.Owner() == e.Owner() && q.transition >= e.transition
  }

  /** t' is t with rows of es added, a row as new as each of them included. */
  ghost predicate Grown(t: Table, t': Table, es: seq<Change>) {
    Kept(t, t') && Sourced(t, t', es) && Covered(t', es)
  }

  lemma GrownMembers(t: Table, t': Table, a: seq<Change>, b: seq<Change>)
    requires Grown(t, t', a) && multiset(a) == multiset(b)
    ensures Grown(t, t', b)
  {
    SameMembers(a, b);
  }

  lemma GrownTwice(t: Table, t1: Table, a: seq<Change>, t2: Table, b: seq<Change>)
    requires Grown(t, t1, a) && Grown(t1, t2, b)
    ensures Grown(t, t2, a + b)
  {
    forall q | q in t2 && q !in t
      ensures exists e :: e in a + b && e.RowKey() == q && e.ToRow() == t2[q]
    {
      if q in t1 {
        var e :| e in a && e.RowKey() == q && e.ToRow() == t1[q];
        assert e in a + b;
      } else {
        var e :| e in b && e.RowKey() == q && e.ToRow() == t2[q];
        assert e in a + b;
      }
    }
    forall e | e in a + b
      ensures exists q :: q in t2 && q.Owner() == e.Owner() && q.transition >= e.transition
    {
      if e in a {
        var q :| q in t1 && q.Owner() == e.Owner() && q.transition >= e.transition;
        assert q in t2;
      }
    }
  }

  lemma BatchGrows(t: Table, es: seq<Change>)
    ensures Grown(t, Append(t, Latest(es)), es)
  {
    LatestFacts(es);
    var m := Latest(es);
    var t' := Append(t, m);
    forall q | q in t' && q !in t ensures exists e :: e in es && e.RowKey() == q && e.ToRow() == t'[q] {
      assert m[q.Owner()] in es;
    }
    forall e | e in es ensures exists q :: q in t' && q.Owner() == e.Owner() && q.transition >= e.transition {
      var q := m[e.Owner()].RowKey();
      assert q in RowKeys(m) by {
        assert q == Key(e.Owner().card, e.Owner().campaign, m[e.Owner()].transition);
      }
      assert q in t';
    }
  }

  lemma {:induction false} BatchesGrow(db: Db, bs: seq<seq<Change>>)
    ensures Grown(db.states, WriteBatches(db, bs).states, Flatten(bs))
  {
    if bs != [] {
      var past, last := bs[..|bs| - 1], bs[|bs| - 1];
      assert bs == past + [last];
      FlattenOne(past, last);
      BatchesGrow(db, past);
      var mid := WriteBatches(db, past).states;
      BatchGrows(mid, last);
      GrownTwice(db.states, mid, Flatten(past), WriteBatches(db, bs).states, last);
    }
  }

  // -------------------------------------------- when schedules cannot disagree

  /** e is a newest change of card k: nothing in the log is newer and
      everything already stored is older. */
  ghost predicate Tops(t: Table, es: seq<Change>, k: CardKey, e: Change) {
    && e in es && e.Owner() == k
    && (forall x :: x in es && x.Owner() == k ==> x.transition <= e.transition)
    && (forall q :: q in t && q.Owner() == k ==> q.transition < e.transition)
  }

  ghost predicate Unambiguous(t: Table, es: seq<Change>, k: CardKey) {
    forall e, f :: Tops(t, es, k, e) && Tops(t, es, k, f) ==> e.ToRow() == f.ToRow()
  }

  /** Where a card's newest row comes from after growth. */
  ghost predicate HeadSource(t: Table, es: seq<Change>, k: CardKey, head: Option<Head>) {
    match head
    case None => (forall e :: e in es ==> e.Owner() != k) && (forall q :: q in t ==> q.Owner() != k)
    case Some(h) =>
      var q := Key(k.card, k.campaign, h.transition);
      && (q in t ==> t[q] == h.row)
      && (q !in t ==> exists e :: Tops(t, es, k, e) && e.RowKey() == q && e.ToRow() == h.row)
      && (forall x :: x in es && x.Owner() == k ==> x.transition <= h.transition)
      && (forall x :: x in t && x.Owner() == k ==> x.transition <= h.transition)
  }

  lemma GrownHead(t: Table, t': Table, es: seq<Change>, k: CardKey)
    requires Grown(t, t', es)
    ensures HeadSource(t, es, k, HeadOf(t', k))
  {
    var head := HeadOf(t', k);
    forall e | e in es && e.Owner() == k
      ensures head.Some? && e.transition <= head.value.transition
    {
      var q :| q in t' && q.Owner() == e.Owner() && q.transition >= e.transition;
    }
    if head.Some? {
      var q := Key(k.card, k.campaign, head.value.transition);
      if q !in t {
        var e :| e in es && e.RowKey() == q && e.ToRow() == t'[q];
        forall p | p in t && p.Owner() == k ensures p.transition < e.transition {
          assert p != q;
        }
        assert Tops(t, es, k, e);
      }
    }
  }

  lemma SameMembers<T>(a: seq<T>, b: seq<T>)
    requires multiset(a) == multiset(b)
    ensures forall x :: x in a <==> x in b
  {
    forall x ensures x in a <==> x in b {
      assert x in a <==> x in multiset(a);
      assert x in b <==> x in multiset(b);
    }
  }

  lemma SourceReached(t: Table, es: seq<Change>, k: CardKey, h1: Option<Head>, h2: Option<Head>)
    requires HeadSource(t, es, k, h1) && HeadSource(t, es, k, h2) && h1.Some?
    ensures h2.Some? && h1.value.transition <= h2.value.transition
  {
    var q := Key(k.card, k.campaign, h1.value.transition);
    if q in t {
      assert q.Owner() == k;
    } else {
      var e :| Tops(t, es, k, e) && e.RowKey() == q;
      assert e in es;
    }
  }

  /** Unambiguous changes leave one possible newest row. */
  lemma SourceUnique(t: Table, es: seq<Change>, k: CardKey, h1: Option<Head>, h2: Option<Head>)
    requires HeadSource(t, es, k, h1) && HeadSource(t, es, k, h2) && Unambiguous(t, es, k)
    ensures h1 == h2
  {
    if h1.Some? {
      SourceReached(t, es, k, h1, h2);
      SourceReached(t, es, k, h2, h1);
      var q := Key(k.card, k.campaign, h1.value.transition);
      if q !in t {
        var e :| Tops(t, es, k, e) && e.RowKey() == q && e.ToRow() == h1.value.row;
        var f :| Tops(t, es, k, f) && f.RowKey() == q && f.ToRow() == h2.value.row;
      }
    } else if h2.Some? {
      SourceReached(t, es, k, h2, h1);
    }
  }

  // -------------------------------------------------------------- main results

  ghost function FinalHead(db: Db, bs: seq<seq<Change>>, k: CardKey): Option<Head> {
    HeadOf(WriteBatches(db, bs).states, k)
  }

  /** bs writes exactly the changes of the log, grouped and ordered anyhow. */
  ghost predicate Schedules(bs: seq<seq<Change>>, log: seq<Change>) {
    multiset(Flatten(bs)) == multiset(log)
  }

  /** All schedules of the log leave card k with the same newest row. */
  ghost predicate Independent(db: Db, log: seq<Change>, k: CardKey) {
    forall a, b :: Schedules(a, log) && Schedules(b, log) ==> FinalHead(db, a, k) == FinalHead(db, b, k)
  }

  lemma AgreeingSchedules(db: Db, log: seq<Change>, k: CardKey, a: seq<seq<Change>>, b: seq<seq<Change>>)
    requires Unambiguous(db.states, log, k) && Schedules(a, log) && Schedules(b, log)
    ensures FinalHead(db, a, k) == FinalHead(db, b, k)
  {
    var t, ta, tb := db.states, WriteBatches(db, a).states, WriteBatches(db, b).states;
    BatchesGrow(db, a);
    BatchesGrow(db, b);
    GrownMembers(t, ta, Flatten(a), log);
    GrownMembers(t, tb, Flatten(b), log);
    GrownHead(t, ta, log, k);
    GrownHead(t, tb, log, k);
    SourceUnique(t, log, k, HeadOf(ta, k), HeadOf(tb, k));
  }

  /** The log with one occurrence of e moved out. */
  function Without(log: seq<Change>, e: Change): (rest: seq<Change>)
    requires e in log
    ensures multiset([e] + rest) == multiset(log)
  {
    if log[0] == e then
      assert log == [e] + log[1..];
      log[1..]
    else
      var rest := Without(log[1..], e);
      assert log == [log[0]] + log[1..];
      assert multiset([e] + ([log[0]] + rest)) == multiset([log[0]]) + multiset([e] + rest);
      [log[0]] + rest
  }

  lemma SingleBatch(t: Table, e: Change)
    requires e.RowKey() !in t
    ensures Append(t, Latest([e])) == t[e.RowKey() := e.ToRow()]
  {
    assert [e][..0] == [];
    assert Latest([e]) == map[e.Owner() := e];
    assert RowKeys(map[e.Owner() := e]) == {e.RowKey()};
  }

  function FirstFlushed(log: seq<Change>, e: Change): seq<seq<Change>>
    requires e in log
  {
    [[e], Without(log, e)]
  }

  lemma FirstFlushedSchedules(db: Db, log: seq<Change>, e: Change)
    requires e in log
    ensures Schedules(FirstFlushed(log, e), log)
    ensures WriteBatches(db, FirstFlushed(log, e)).states
         == Append(Append(db.states, Latest([e])), Latest(Without(log, e)))
  {
    var rest := Without(log, e);
    var bs := FirstFlushed(log, e);
    assert bs[1..] == [rest] && [rest][1..] == [];
    assert Flatten([rest]) == rest;
    assert bs[..1] == [[e]] && [[e]][..0] == [];
    assert WriteBatches(db, []) == db;
    assert WriteBatches(db, [[e]]) == WriteBatch(db, [e]);
  }

  /** Flushing a newest change first makes its row the one that stays. */
  lemma FirstFlushedStays(db: Db, log: seq<Change>, k: CardKey, e: Change)
    requires Tops(db.states, log, k, e)
    ensures FinalHead(db, FirstFlushed(log, e), k) == Some(Head(e.transition, e.ToRow()))
  {
    var rest, t := Without(log, e), db.states;
    FirstFlushedSchedules(db, log, e);
    SingleBatch(t, e);
    BatchGrows(t, [e]);
    var mid := Append(t, Latest([e]));
    BatchGrows(mid, rest);
    var end := Append(mid, Latest(rest));
    GrownTwice(t, mid, [e], end, rest);
    GrownMembers(t, end, [e] + rest, log);
    GrownHead(t, end, log, k);
    assert end[e.RowKey()] == e.ToRow();
  }

  /** Exactly when batching does not matter: all schedules agree on a card's
      newest row if and only if its newest changes agree on it. */
  lemma IndependentExactly(db: Db, log: seq<Change>, k: CardKey)
    ensures Independent(db, log, k) <==> Unambiguous(db.states, log, k)
  {
    if Unambiguous(db.states, log, k) {
      forall a, b | Schedules(a, log) && Schedules(b, log) ensures FinalHead(db, a, k) == FinalHead(db, b, k) {
        AgreeingSchedules(db, log, k, a, b);
      }
    } else {
      AmbiguousDiffers(db, log, k);
    }
  }

  lemma AmbiguousDiffers(db: Db, log: seq<Change>, k: CardKey)
    requires !Unambiguous(db.states, log, k)
    ensures !Independent(db, log, k)
  {
    var e, f :| Tops(db.states, log, k, e) && Tops(db.states, log, k, f) && e.ToRow() != f.ToRow();
    FirstFlushedSchedules(db, log, e);
    FirstFlushedSchedules(db, log, f);
    FirstFlushedStays(db, log, k, e);
    FirstFlushedStays(db, log, k, f);
    var a, b := FirstFlushed(log, e), FirstFlushed(log, f);
    assert FinalHead(db, a, k) != FinalHead(db, b, k);
  }

  // ------------------------------------------------------------------ counters

  lemma PlusAssociates(a: Counts, b: Counts, c: Counts)
    ensures a.Plus(b).Plus(c) == a.Plus(b.Plus(c))
    ensures a.Plus(b) == b.Plus(a) && a.Plus(ZERO) == a
  {
  }

  lemma DeltasOne(es: seq<Change>, e: Change, c: CampaignId)
    ensures Deltas(es + [e], c) == Deltas(es, c).Plus(DeltaOf(e, c))
  {
    assert (es + [e])[..|es|] == es;
  }

  lemma {:induction false} DeltasConcat(a: seq<Change>, b: seq<Change>, c: CampaignId)
    ensures Deltas(a + b, c) == Deltas(a, c).Plus(Deltas(b, c))
    decreases |b|
  {
    if b == [] {
      assert a + b == a;
      PlusAssociates(Deltas(a, c), ZERO, ZERO);
    } else {
      var past, e := b[..|b| - 1], b[|b| - 1];
      assert b == past + [e] && a + b == (a + past) + [e];
      DeltasOne(a + past, e, c);
      DeltasOne(past, e, c);
      DeltasConcat(a, past, c);
      PlusAssociates(Deltas(a, c), Deltas(past, c), DeltaOf(e, c));
    }
  }

  lemma DeltasMoved(pre: seq<Change>, e: Change, post: seq<Change>, c: CampaignId)
    ensures Deltas(pre + [e] + post, c) == Deltas(pre + post, c).Plus(DeltaOf(e, c))
  {
    var x, y, d := Deltas(pre, c), Deltas(post, c), DeltaOf(e, c);
    DeltasConcat(pre, post, c);
    DeltasConcat(pre + [e], post, c);
    DeltasOne(pre, e, c);
    PlusAssociates(x, d, y);
    PlusAssociates(d, y, ZERO);
    PlusAssociates(x, y, d);
  }

  lemma RemoveOne<T>(past: seq<T>, e: T, pre: seq<T>, post: seq<T>)
    requires multiset(past + [e]) == multiset(pre + [e] + post)
    ensures multiset(past) == multiset(pre + post)
  {
    assert multiset(past) == multiset(past + [e]) - multiset{e};
    assert multiset(pre + post) == multiset(pre + [e] + post) - multiset{e};
  }

  lemma {:induction false} DeltasPermute(a: seq<Change>, b: seq<Change>, c: CampaignId)
    requires multiset(a) == multiset(b)
    ensures Deltas(a, c) == Deltas(b, c)
    decreases |a|
  {
    if a == [] {
      assert |b| == |multiset(b)| == |multiset(a)| == 0;
    } else {
      var past, e := a[..|a| - 1], a[|a| - 1];
      assert a == past + [e];
      SameMembers(a, b);
      assert e in b;
      var i :| 0 <= i < |b| && b[i] == e;
      var pre, post := b[..i], b[i + 1..];
      assert b == pre + [e] + post;
      RemoveOne(past, e, pre, post);
      DeltasPermute(past, pre + post, c);
      DeltasMoved(pre, e, post, c);
      DeltasOne(past, e, c);
    }
  }

  lemma CountedTwice(stats: Stats, a: seq<Change>, b: seq<Change>)
    ensures Counted(Counted(stats, a), b) == Counted(stats, a + b)
  {
    forall c | c in stats ensures Counted(Counted(stats, a), b)[c] == Counted(stats, a + b)[c] {
      DeltasConcat(a, b, c);
      PlusAssociates(stats[c].counts, Deltas(a, c), Deltas(b, c));
    }
  }

  lemma CountedNothing(stats: Stats)
    ensures Counted(stats, []) == stats
  {
    forall c | c in stats ensures Counted(stats, [])[c] == stats[c] {
      PlusAssociates(stats[c].counts, ZERO, ZERO);
    }
  }

  lemma {:induction false} StatsOfBatches(db: Db, bs: seq<seq<Change>>)
    ensures WriteBatches(db, bs).stats == Counted(db.stats, Flatten(bs))
  {
    if bs == [] {
      CountedNothing(db.stats);
    } else {
      var past, last := bs[..|bs| - 1], bs[|bs| - 1];
      assert bs == past + [last];
      FlattenOne(past, last);
      StatsOfBatches(db, past);
      CountedTwice(db.stats, Flatten(past), last);
    }
  }

  lemma StatsOfSchedule(db: Db, log: seq<Change>, bs: seq<seq<Change>>)
    requires Schedules(bs, log)
    ensures WriteBatches(db, bs).stats == Counted(db.stats, log)
  {
    StatsOfBatches(db, bs);
    forall c | c in db.stats ensures Deltas(Flatten(bs), c) == Deltas(log, c) {
      DeltasPermute(Flatten(bs), log, c);
    }
  }

  /** Batched writing refines writing one change at a time: same counters
      always, and the same newest row of every card when transition numbers
      are not reused. */
  lemma BatchingRefines(db: Db, log: seq<Change>, bs: seq<seq<Change>>)
    requires Schedules(bs, log)
    requires forall i, j :: 0 <= i < j < |log| ==> log[i].RowKey() != log[j].RowKey()
    ensures WriteBatches(db, bs).stats == WriteBatches(db, Singles(log)).stats
    ensures forall k :: FinalHead(db, bs, k) == FinalHead(db, Singles(log), k)
  {
    FlattenSingles(log);
    StatsOfSchedule(db, log, bs);
    StatsOfSchedule(db, log, Singles(log));
    forall k ensures FinalHead(db, bs, k) == FinalHead(db, Singles(log), k) {
      assert Unambiguous(db.states, log, k);
      AgreeingSchedules(db, log, k, bs, Singles(log));
    }
  }

  // ----------------------------------------------------------- the writer's loop

  /** What wakes a writer: a change from the channel, or the flush timer. */
  datatype Signal = Arrive(change: Change) | Tick

  function Arrivals(ss: seq<Signal>): seq<Change> {
    if ss == [] then []
    else Arrivals(ss[..|ss| - 1]) + if ss[|ss| - 1].Arrive? then [ss[|ss| - 1].change] else []
  }

  /** One writer until its channel closes: everything received is flushed, in
      order, in batches that are neither empty nor over the limit. */
  method RunCardStateWriter(signals: seq<Signal>, maxBatch: nat) returns (flushed: seq<seq<Change>>)
    requires maxBatch > 0
    ensures Flatten(flushed) == Arrivals(signals)
    ensures forall b :: b in flushed ==> 0 < |b| <= maxBatch
  {
    flushed := [];
    var batch: seq<Change> := [];
    var i := 0;
    while i < |signals|
      invariant 0 <= i <= |signals| && |batch| < maxBatch
      invariant Flatten(flushed) + batch == Arrivals(signals[..i])
      invariant forall b :: b in flushed ==> 0 < |b| <= maxBatch
    {
      assert signals[..i + 1][..i] == signals[..i];
      match signals[i] {
        case Arrive(change) =>
          batch := batch + [change];
          if |batch| >= maxBatch {
            FlattenOne(flushed, batch);
            flushed, batch := flushed + [batch], [];
          }
        case Tick =>
          if batch != [] {
            FlattenOne(flushed, batch);
            flushed, batch := flushed + [batch], [];
          }
      }
      i := i + 1;
    }
    assert signals[..|signals|] == signals;
    if batch != [] {
      FlattenOne(flushed, batch);
      flushed := flushed + [batch];
    }
  }

  // -------------------------------------------------------- what rows and counters say

  /** The row says of the card what the change does, column by column. */
  predicate Records(q: Key, r: Row, e: Change) {
    && q.card == e.card && q.campaign == e.campaign && q.transition == e.transition
    && r.status == e.status && r.step == e.step && r.retry == e.retry
    && r.lastMsg == e.lastMsg && r.error == e.error && r.at == e.at
  }

  /** After any batches, rows of before are as they were, and each new row records
      one of the changes. */
  lemma RowsRecord(db: Db, bs: seq<seq<Change>>, q: Key)
    ensures var t := WriteBatches(db, bs).states;
            && (q in db.states ==> q in t && t[q] == db.states[q])
            && (q in t && q !in db.states ==> exists e :: e in Flatten(bs) && Records(q, t[q], e))
  {
    BatchesGrow(db, bs);
    var t := WriteBatches(db, bs).states;
    if q in t && q !in db.states {
      var e :| e in Flatten(bs) && e.RowKey() == q && e.ToRow() == t[q];
      assert Records(q, t[q], e);
    }
  }

  /** One batch adds just one row per card it names, of the change KeptAt tells,
      unless the key is taken. */
  lemma BatchRecords(db: Db, es: seq<Change>, q: Key)
    ensures var t := WriteBatch(db, es).states;
            q in t && q !in db.states <==>
            q !in db.states && exists i :: KeptAt(es, q.Owner(), i) && es[i].transition == q.transition
    ensures var t := WriteBatch(db, es).states;
            q in t && q !in db.states ==>
            exists i :: KeptAt(es, q.Owner(), i) && Records(q, t[q], es[i])
  {
    var m, k := Latest(es), q.Owner();
    LatestExactly(es, k);
    if k in m {
      var i :| KeptAt(es, k, i) && m[k] == es[i];
      assert q in RowKeys(m) <==> m[k].transition == q.transition by {
        assert q == Key(k.card, k.campaign, q.transition);
      }
      forall j | KeptAt(es, k, j) ensures es[j].transition == es[i].transition {
      }
    } else {
      assert forall i :: 0 <= i < |es| ==> es[i] in es;
    }
  }

  /** How many changes of the campaign enter one of the statuses, less how many
      leave one. */
  function Flow(es: seq<Change>, c: CampaignId, ss: set<Status>): int {
    if es == [] then 0
    else
      var e := es[|es| - 1];
      Flow(es[..|es| - 1], c, ss)
      + if e.campaign != c then 0 else (if e.statsTo in ss then 1 else 0) - if e.statsFrom in ss then 1 else 0
  }

  /** What a column holds. */
  function Cell(n: Counts, col: Column): int {
    match col
    case NoCol => 0
    case PendingCol => n.pending
    case InProgressCol => n.inProgress
    case CompletedCol => n.completed
    case FailedCol => n.failed
    case SkippedCol => n.skipped
  }

  lemma CellBumped(n: Counts, col: Column, c: Column, adj: int)
    requires !col.NoCol?
    ensures Cell(n.Bump(c, adj), col) == Cell(n, col) + if c == col then adj else 0
  {
  }

  lemma CellMoved(e: Change, c: CampaignId, col: Column)
    requires e.campaign == c && !col.NoCol?
    ensures Cell(DeltaOf(e, c), col) ==
              (if StatusColumn(e.statsTo) == col then 1 else 0) - (if StatusColumn(e.statsFrom) == col then 1 else 0)
  {
    CellBumped(ZERO, col, StatusColumn(e.statsFrom), -1);
    CellBumped(ZERO.Bump(StatusColumn(e.statsFrom), -1), col, StatusColumn(e.statsTo), 1);
  }

  /** The statuses a column counts. */
  function Statuses(col: Column): set<Status> {
    match col
    case NoCol => {}
    case PendingCol => {Pending, Activating}
    case InProgressCol => {InProgress, AwaitingDlr, AwaitingMo}
    case CompletedCol => {Completed}
    case FailedCol => {Failed}
    case SkippedCol => {Skipped}
  }

  lemma ColumnStatuses(s: Status, col: Column)
    requires !col.NoCol?
    ensures StatusColumn(s) == col <==> s in Statuses(col)
  {
  }

  lemma FlowOne(e: Change, c: CampaignId, col: Column)
    requires e.campaign == c && !col.NoCol?
    ensures var ss := Statuses(col);
            Cell(DeltaOf(e, c), col) == (if e.statsTo in ss then 1 else 0) - (if e.statsFrom in ss then 1 else 0)
  {
    CellMoved(e, c, col);
    ColumnStatuses(e.statsTo, col);
    ColumnStatuses(e.statsFrom, col);
  }

  lemma CellPlus(n: Counts, d: Counts, col: Column)
    ensures Cell(n.Plus(d), col) == Cell(n, col) + Cell(d, col)
  {
  }

  lemma {:induction false} DeltasFlow(es: seq<Change>, c: CampaignId, col: Column)
    requires !col.NoCol?
    ensures Cell(Deltas(es, c), col) == Flow(es, c, Statuses(col))
  {
    if es != [] {
      var e := es[|es| - 1];
      DeltasFlow(es[..|es| - 1], c, col);
      CellPlus(Deltas(es[..|es| - 1], c), DeltaOf(e, c), col);
      if e.campaign == c {
        FlowOne(e, c, col);
      }
    }
  }

  lemma CounterFlow(db: Db, bs: seq<seq<Change>>, c: CampaignId, col: Column)
    requires c in db.stats && !col.NoCol?
    ensures c in WriteBatches(db, bs).stats
    ensures Cell(WriteBatches(db, bs).stats[c].counts, col) ==
              Cell(db.stats[c].counts, col) + Flow(Flatten(bs), c, Statuses(col))
  {
    StatsOfBatches(db, bs);
    DeltasFlow(Flatten(bs), c, col);
    CellPlus(db.stats[c].counts, Deltas(Flatten(bs), c), col);
  }

  lemma TotalStays(db: Db, bs: seq<seq<Change>>, c: CampaignId)
    requires c in db.stats
    ensures c in WriteBatches(db, bs).stats && WriteBatches(db, bs).stats[c].total == db.stats[c].total
  {
    StatsOfBatches(db, bs);
  }

  /** Whatever the batches, each counter gains the changes that enter its statuses
      and loses those that leave them; totals and absent rows stay. */
  lemma CountersExactly(db: Db, bs: seq<seq<Change>>, c: CampaignId)
    ensures var stats, es := WriteBatches(db, bs).stats, Flatten(bs);
            && (c in stats <==> c in db.stats)
            && (c in stats ==>
                  var n, n' := db.stats[c].counts, stats[c].counts;
                  && stats[c].total == db.stats[c].total
                  && n'.pending == n.pending + Flow(es, c, {Pending, Activating})
                  && n'.inProgress == n.inProgress + Flow(es, c, {InProgress, AwaitingDlr, AwaitingMo})
                  && n'.completed == n.completed + Flow(es, c, {Completed})
                  && n'.failed == n.failed + Flow(es, c, {Failed})
                  && n'.skipped == n.skipped + Flow(es, c, {Skipped}))
  {
    StatsOfBatches(db, bs);
    if c in db.stats {
      TotalStays(db, bs, c);
      CounterFlow(db, bs, c, PendingCol);
      CounterFlow(db, bs, c, InProgressCol);
      CounterFlow(db, bs, c, CompletedCol);
      CounterFlow(db, bs, c, FailedCol);
      CounterFlow(db, bs, c, SkippedCol);
    }
  }
}
