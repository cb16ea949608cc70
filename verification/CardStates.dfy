/** The batched card-state writer: rows appended to card_execution_states and
    counters moved in campaign_stats. */
module CardStates {
  import opened Common

  type CardId = nat
  type CampaignId = nat

  /** Card statuses; `Unset` is the empty string. */
  datatype Status =
    | Pending | Activating | InProgress | AwaitingDlr | AwaitingMo | Completed | Failed | Skipped
    | Unset | Other(name: string)
  {
    predicate Terminal() {
      Completed? || Failed? || Skipped?
    }
  }

  /** A card state change, as the executor sends it to the writers. */
  datatype Change = Change(
    card: CardId, campaign: CampaignId, status: Status, step: int, retry: int, lastMsg: Option<nat>,
    error: string, at: int, transition: int, statsFrom: Status, statsTo: Status)
  {
    function Owner(): CardKey {
      CardKey(card, campaign)
    }

    function RowKey(): Key {
      Key(card, campaign, transition)
    }

    function ToRow(): Row {
      Row(status, step, retry, lastMsg, error, at)
    }
  }

  datatype CardKey = CardKey(card: CardId, campaign: CampaignId)

  /** Primary key of card_execution_states. */
  datatype Key = Key(card: CardId, campaign: CampaignId, transition: int) {
    function Owner(): CardKey {
      CardKey(card, campaign)
    }
  }

  datatype Row = Row(status: Status, step: int, retry: int, lastMsg: Option<nat>, error: string, at: int)

  type Table = map<Key, Row>

  // --------------------------------------------------------------- statistics

  /** A counter column; `NoCol` is the answer for statuses without one. */
  datatype Column = NoCol | PendingCol | InProgressCol | CompletedCol | FailedCol | SkippedCol

  function StatusColumn(s: Status): Column {
    if s.Pending? || s.Activating? then PendingCol
    else if s.InProgress? || s.AwaitingDlr? || s.AwaitingMo? then InProgressCol
    else if s.Completed? then CompletedCol
    else if s.Failed? then FailedCol
    else if s.Skipped? then SkippedCol
    else NoCol
  }

  /** The five counters, or an adjustment of them. */
  datatype Counts = Counts(pending: int, inProgress: int, completed: int, failed: int, skipped: int) {
    function Plus(d: Counts): Counts {
      Counts(pending + d.pending, inProgress + d.inProgress, completed + d.completed,
             failed + d.failed, skipped + d.skipped)
    }

    function Sum(): int {
      pending + inProgress + completed + failed + skipped
    }

    function Bump(c: Column, adj: int): Counts {
      match c
      case NoCol => this
      case PendingCol => this.(pending := pending + adj)
      case InProgressCol => this.(inProgress := inProgress + adj)
      case CompletedCol => this.(completed := completed + adj)
      case FailedCol => this.(failed := failed + adj)
      case SkippedCol => this.(skipped := skipped + adj)
    }
  }

  const ZERO := Counts(0, 0, 0, 0, 0)

  datatype StatsRow = StatsRow(total: int, counts: Counts)

  type Stats = map<CampaignId, StatsRow>

  /** The adjustment one change makes to a campaign's counters. */
  function DeltaOf(e: Change, c: CampaignId): Counts {
    if e.campaign != c then ZERO
    else ZERO.Bump(StatusColumn(e.statsFrom), -1).Bump(StatusColumn(e.statsTo), 1)
  }

  function Deltas(es: seq<Change>, c: CampaignId): Counts {
    if es == [] then ZERO else Deltas(es[..|es| - 1], c).Plus(DeltaOf(es[|es| - 1], c))
  }

  /** The assignments of the generated UPDATE: zero adjustments are left out. */
  function NonZero(c: Column, adj: int): seq<(Column, int)> {
    if adj != 0 then [(c, adj)] else []
  }

  function StatsAssignments(d: Counts): seq<(Column, int)> {
    NonZero(PendingCol, d.pending) + NonZero(InProgressCol, d.inProgress) + NonZero(CompletedCol, d.completed)
    + NonZero(FailedCol, d.failed) + NonZero(SkippedCol, d.skipped)
  }

  function Assign(c: Counts, sets: seq<(Column, int)>): Counts
    decreases |sets|
  {
    if sets == [] then c else Assign(c.Bump(sets[0].0, sets[0].1), sets[1..])
  }

  lemma AssignNonZero(c: Counts, col: Column, adj: int, rest: seq<(Column, int)>)
    ensures Assign(c, NonZero(col, adj) + rest) == Assign(c.Bump(col, adj), rest)
  {
    if adj != 0 {
      assert (NonZero(col, adj) + rest)[1..] == rest;
    } else {
      assert NonZero(col, adj) + rest == rest;
    }
  }

  /** Leaving out the zero adjustments changes nothing. */
  lemma AssignmentsAdd(c: Counts, d: Counts)
    ensures Assign(c, StatsAssignments(d)) == c.Plus(d)
  {
    AssignmentsBump(c, d);
  }

  lemma AssignmentsBump(c: Counts, d: Counts)
    ensures Assign(c, StatsAssignments(d)) ==
              c.Bump(PendingCol, d.pending).Bump(InProgressCol, d.inProgress).Bump(CompletedCol, d.completed)
               .Bump(FailedCol, d.failed).Bump(SkippedCol, d.skipped)
  {
    var s5: seq<(Column, int)> := NonZero(SkippedCol, d.skipped) + [];
    var s4 := NonZero(FailedCol, d.failed) + s5;
    var s3 := NonZero(CompletedCol, d.completed) + s4;
    var s2 := NonZero(InProgressCol, d.inProgress) + s3;
    AssignmentsAre(d, s2, s3, s4, s5);
    var c1 := c.Bump(PendingCol, d.pending);
    AssignNonZero(c, PendingCol, d.pending, s2);
    AssignNonZero(c1, InProgressCol, d.inProgress, s3);
    LastAssignments(c1.Bump(InProgressCol, d.inProgress), d, s3, s4, s5);
  }

  lemma LastAssignments(c: Counts, d: Counts, s3: seq<(Column, int)>, s4: seq<(Column, int)>, s5: seq<(Column, int)>)
    requires s5 == NonZero(SkippedCol, d.skipped) + []
    requires s4 == NonZero(FailedCol, d.failed) + s5 && s3 == NonZero(CompletedCol, d.completed) + s4
    ensures Assign(c, s3) == c.Bump(CompletedCol, d.completed).Bump(FailedCol, d.failed).Bump(SkippedCol, d.skipped)
  {
    var c1 := c.Bump(CompletedCol, d.completed);
    AssignNonZero(c, CompletedCol, d.completed, s4);
    AssignNonZero(c1, FailedCol, d.failed, s5);
    AssignNonZero(c1.Bump(FailedCol, d.failed), SkippedCol, d.skipped, []);
  }

  lemma AssignmentsAre(d: Counts, s2: seq<(Column, int)>, s3: seq<(Column, int)>, s4: seq<(Column, int)>, s5: seq<(Column, int)>)
    requires s5 == NonZero(SkippedCol, d.skipped) + [] && s4 == NonZero(FailedCol, d.failed) + s5
    requires s3 == NonZero(CompletedCol, d.completed) + s4 && s2 == NonZero(InProgressCol, d.inProgress) + s3
    ensures StatsAssignments(d) == NonZero(PendingCol, d.pending) + s2
  {
  }

  /** Counters of existing rows move; a campaign without a row stays without. */
  function Counted(stats: Stats, es: seq<Change>): Stats {
    map c | c in stats :: stats[c].(counts := stats[c].counts.Plus(Deltas(es, c)))
  }

  // ------------------------------------------------------------ batch contents

  predicate Supersedes(e: Change, kept: Change) {
    e.transition > kept.transition || (e.transition == kept.transition && e.at > kept.at)
  }

  /** The change kept for each card: highest transition, then latest time,
      then first in the batch. */
  function Latest(es: seq<Change>): map<CardKey, Change> {
    if es == [] then map[] else Keep(Latest(es[..|es| - 1]), es[|es| - 1])
  }

  function Keep(m: map<CardKey, Change>, e: Change): map<CardKey, Change> {
    if e.Owner() !in m || Supersedes(e, m[e.Owner()]) then m[e.Owner() := e] else m
  }

  lemma {:induction false} LatestFacts(es: seq<Change>)
    ensures forall k :: k in Latest(es) ==> Latest(es)[k].Owner() == k && Latest(es)[k] in es
    ensures forall e :: e in es ==> e.Owner() in Latest(es) && Latest(es)[e.Owner()].transition >= e.transition
  {
    if es != [] {
      LatestFacts(es[..|es| - 1]);
    }
  }

  /** Position i holds the change kept for its card: every earlier one of the card
      has a lower transition, or the same and an earlier time, and no later one is
      above it. */
  ghost predicate KeptAt(es: seq<Change>, k: CardKey, i: int) {
    && 0 <= i < |es| && es[i].card == k.card && es[i].campaign == k.campaign
    && (forall j :: 0 <= j < |es| && es[j].card == k.card && es[j].campaign == k.campaign ==>
          || es[j].transition < es[i].transition
          || (es[j].transition == es[i].transition && if j < i then es[j].at < es[i].at else es[j].at <= es[i].at))
  }

  lemma KeptMore(es: seq<Change>, e: Change, k: CardKey, i: int)
    requires KeptAt(es, k, i)
    ensures e.Owner() != k || !Supersedes(e, es[i]) ==> KeptAt(es + [e], k, i)
    ensures e.Owner() == k && Supersedes(e, es[i]) ==> KeptAt(es + [e], k, |es|)
  {
    assert forall j :: 0 <= j < |es| ==> (es + [e])[j] == es[j];
  }

  lemma KeptFirst(es: seq<Change>, e: Change, k: CardKey)
    requires e.Owner() == k && forall x :: x in es ==> x.card != k.card || x.campaign != k.campaign
    ensures KeptAt(es + [e], k, |es|)
  {
    forall j | 0 <= j < |es| ensures (es + [e])[j].card != k.card || (es + [e])[j].campaign != k.campaign {
      assert es[j] in es;
    }
  }

  ghost predicate KeptOf(es: seq<Change>, k: CardKey, e: Change) {
    exists i :: KeptAt(es, k, i) && e == es[i]
  }

  lemma KeptNext(es: seq<Change>, e: Change, k: CardKey, kept: Change)
    requires KeptOf(es, k, kept)
    ensures KeptOf(es + [e], k, if e.Owner() == k && Supersedes(e, kept) then e else kept)
  {
    var i :| KeptAt(es, k, i) && kept == es[i];
    KeptMore(es, e, k, i);
    assert (es + [e])[i] == es[i] && (es + [e])[|es|] == e;
  }

  lemma LatestHas(es: seq<Change>, k: CardKey)
    ensures k in Latest(es) <==> exists e :: e in es && e.card == k.card && e.campaign == k.campaign
  {
    LatestFacts(es);
    if e :| e in es && e.card == k.card && e.campaign == k.campaign {
      assert e.Owner() == k;
    }
  }

  lemma KeepIs(m: map<CardKey, Change>, e: Change, k: CardKey)
    ensures k in m && !(e.Owner() == k && Supersedes(e, m[k])) ==> k in Keep(m, e) && Keep(m, e)[k] == m[k]
    ensures e.Owner() == k && (k !in m || Supersedes(e, m[k])) ==> k in Keep(m, e) && Keep(m, e)[k] == e
    ensures k !in m && e.Owner() != k ==> k !in Keep(m, e)
  {
  }

  /** Which change a batch keeps: of a card with changes, the first of its latest
      ones with the highest transition. */
  lemma {:induction false} LatestExactly(es: seq<Change>, k: CardKey)
    ensures k in Latest(es) <==> exists e :: e in es && e.card == k.card && e.campaign == k.campaign
    ensures k in Latest(es) ==> KeptOf(es, k, Latest(es)[k])
  {
    LatestHas(es, k);
    if es != [] {
      var past, e := es[..|es| - 1], es[|es| - 1];
      assert es == past + [e];
      LatestExactly(past, k);
      KeepIs(Latest(past), e, k);
      if k in Latest(past) {
        KeptNext(past, e, k, Latest(past)[k]);
      } else if e.Owner() == k {
        KeptFirst(past, e, k);
        assert (past + [e])[|past|] == e;
        assert KeptOf(past + [e], k, e);
      }
    }
  }

  function RowKeys(m: map<CardKey, Change>): set<Key> {
    set k | k in m :: Key(k.card, k.campaign, m[k].transition)
  }

  /** INSERT ... ON CONFLICT DO NOTHING of the kept changes. */
  function Append(t: Table, m: map<CardKey, Change>): Table {
    t + (map k | k in RowKeys(m) && k !in t :: m[k.Owner()].ToRow())
  }

  datatype Db = Db(states: Table, stats: Stats)

  function WriteBatch(db: Db, es: seq<Change>): Db {
    Db(Append(db.states, Latest(es)), Counted(db.stats, es))
  }

  // ------------------------------------------------------------ the code form

  /** One row of such an INSERT. */
  function InsertOne(t: Table, e: Change): Table {
    if e.RowKey() in t then t else t[e.RowKey() := e.ToRow()]
  }

  function At(deltas: map<CampaignId, Counts>, c: CampaignId): Counts {
    if c in deltas then deltas[c] else ZERO
  }

  ghost predicate Sums(deltas: map<CampaignId, Counts>, es: seq<Change>, c: CampaignId) {
    At(deltas, c) == Deltas(es, c)
  }

  function AddDelta(deltas: map<CampaignId, Counts>, e: Change): map<CampaignId, Counts> {
    if e.statsFrom.Unset? && e.statsTo.Unset? then deltas
    else
      deltas[e.campaign := At(deltas, e.campaign).Bump(StatusColumn(e.statsFrom), -1).Bump(StatusColumn(e.statsTo), 1)]
  }

  lemma BumpAdds(d: Counts, n: Counts, c: Column, adj: int)
    ensures d.Plus(n).Bump(c, adj) == d.Plus(n.Bump(c, adj))
  {
  }

  lemma BumpsAdd(d: Counts, from: Column, to: Column)
    ensures d.Bump(from, -1).Bump(to, 1) == d.Plus(ZERO.Bump(from, -1).Bump(to, 1))
  {
    assert d.Plus(ZERO) == d;
    BumpAdds(d, ZERO, from, -1);
    BumpAdds(d, ZERO.Bump(from, -1), to, 1);
  }

  lemma NothingMoved(e: Change, c: CampaignId)
    requires e.campaign != c || (e.statsFrom.Unset? && e.statsTo.Unset?)
    ensures DeltaOf(e, c) == ZERO
  {
  }

  lemma AddDeltaElsewhere(deltas: map<CampaignId, Counts>, e: Change, c: CampaignId)
    requires e.campaign != c || (e.statsFrom.Unset? && e.statsTo.Unset?)
    ensures At(AddDelta(deltas, e), c) == At(deltas, c)
  {
  }

  lemma AddDeltaHere(deltas: map<CampaignId, Counts>, e: Change)
    requires !(e.statsFrom.Unset? && e.statsTo.Unset?)
    ensures At(AddDelta(deltas, e), e.campaign) ==
              At(deltas, e.campaign).Bump(StatusColumn(e.statsFrom), -1).Bump(StatusColumn(e.statsTo), 1)
  {
  }

  lemma AddDeltaMoved(deltas: map<CampaignId, Counts>, e: Change)
    requires !(e.statsFrom.Unset? && e.statsTo.Unset?)
    ensures At(AddDelta(deltas, e), e.campaign) == At(deltas, e.campaign).Plus(DeltaOf(e, e.campaign))
  {
    AddDeltaHere(deltas, e);
    BumpsAdd(At(deltas, e.campaign), StatusColumn(e.statsFrom), StatusColumn(e.statsTo));
  }

  lemma PlusZero(d: Counts, z: Counts)
    requires z == ZERO
    ensures d.Plus(z) == d
  {
  }

  lemma AddDeltaQuiet(deltas: map<CampaignId, Counts>, e: Change, c: CampaignId)
    requires e.campaign != c || (e.statsFrom.Unset? && e.statsTo.Unset?)
    ensures At(AddDelta(deltas, e), c) == At(deltas, c).Plus(DeltaOf(e, c))
  {
    NothingMoved(e, c);
    AddDeltaElsewhere(deltas, e, c);
    PlusZero(At(deltas, c), DeltaOf(e, c));
  }

  lemma AddDeltaAt(deltas: map<CampaignId, Counts>, e: Change, c: CampaignId)
    ensures At(AddDelta(deltas, e), c) == At(deltas, c).Plus(DeltaOf(e, c))
  {
    if e.campaign != c || (e.statsFrom.Unset? && e.statsTo.Unset?) {
      AddDeltaQuiet(deltas, e, c);
    } else {
      AddDeltaMoved(deltas, e);
    }
  }

  lemma AddDeltaSums(deltas: map<CampaignId, Counts>, es: seq<Change>, e: Change, c: CampaignId)
    requires Sums(deltas, es, c)
    ensures Sums(AddDelta(deltas, e), es + [e], c)
  {
    AddDeltaAt(deltas, e, c);
    assert (es + [e])[..|es|] == es;
  }

  class CardStateStore {
    var states: Table
    var stats: Stats

    ghost function Contents(): Db
      reads this
    {
      Db(states, stats)
    }

    method KeepLatest(events: seq<Change>) returns (latest: map<CardKey, Change>)
      ensures latest == Latest(events)
    {
      latest := map[];
      var i := 0;
      while i < |events|
        invariant 0 <= i <= |events|
        invariant latest == Latest(events[..i])
      {
        var ev := events[i];
        var k := ev.Owner();
        assert events[..i + 1][..i] == events[..i];
        assert Latest(events[..i + 1]) == Keep(latest, ev);
        if k !in latest {
          latest := latest[k := ev];
        } else if ev.transition > latest[k].transition
               || (ev.transition == latest[k].transition && ev.at > latest[k].at) {
          latest := latest[k := ev];
        }
        i := i + 1;
      }
      assert events[..|events|] == events;
    }

    /** Adjustments of all events, kept or not, per campaign named by one that
        moves a counter. */
    method SumDeltas(events: seq<Change>) returns (deltas: map<CampaignId, Counts>)
      ensures forall c :: Sums(deltas, events, c)
    {
      deltas := map[];
      var i := 0;
      while i < |events|
        invariant 0 <= i <= |events|
        invariant forall c :: Sums(deltas, events[..i], c)
      {
        var ev := events[i];
        ghost var before, seen := deltas, events[..i];
        assert events[..i + 1] == seen + [ev];
        if !(ev.statsFrom.Unset? && ev.statsTo.Unset?) {
          var d := if ev.campaign in deltas then deltas[ev.campaign] else ZERO;
          d := d.Bump(StatusColumn(ev.statsFrom), -1);
          d := d.Bump(StatusColumn(ev.statsTo), 1);
          deltas := deltas[ev.campaign := d];
        }
        assert deltas == AddDelta(before, ev);
        forall c ensures Sums(deltas, seen + [ev], c) {
          AddDeltaSums(before, seen, ev, c);
        }
        i := i + 1;
      }
      assert events[..|events|] == events;
    }

    /** The row inserts, in whatever order the kept changes are visited. */
    method InsertRows(table: Table, latest: map<CardKey, Change>) returns (t: Table)
      requires forall k :: k in latest ==> latest[k].Owner() == k
      ensures t == Append(table, latest)
    {
      t := table;
      var todo := latest.Keys;
      ghost var done: map<CardKey, Change> := map[];
      AppendNone(table);
      while todo != {}
        invariant todo !! done.Keys && todo + done.Keys == latest.Keys
        invariant forall k :: k in done ==> done[k] == latest[k]
        invariant t == Append(table, done)
        decreases todo
      {
        var k :| k in todo;
        var ev := latest[k];
        AppendOne(table, done, k, ev);
        t := InsertOne(t, ev);
        todo, done := todo - {k}, done[k := ev];
      }
      assert done == latest;
    }

    /** One UPDATE per campaign; an UPDATE without assignments is not sent. */
    method UpdateStats(stats: Stats, deltas: map<CampaignId, Counts>) returns (s: Stats)
      ensures s.Keys == stats.Keys
      ensures forall c :: c in stats ==>
                s[c] == stats[c].(counts := stats[c].counts.Plus(if c in deltas then deltas[c] else ZERO))
    {
      s := stats;
      var todo := deltas.Keys;
      while todo != {}
        invariant todo <= deltas.Keys && s.Keys == stats.Keys
        invariant forall c :: c in stats ==>
          s[c] == stats[c].(counts := stats[c].counts.Plus(if c in deltas && c !in todo then deltas[c] else ZERO))
        decreases todo
      {
        var c :| c in todo;
        var sets := StatsAssignments(deltas[c]);
        if c in s {
          AssignmentsAdd(s[c].counts, deltas[c]);
          if sets != [] {
            s := s[c := s[c].(counts := Assign(s[c].counts, sets))];
          }
        }
        todo := todo - {c};
      }
    }

    method WriteCardStateBatch(events: seq<Change>)
      modifies this
      ensures Contents() == WriteBatch(old(Contents()), events)
    {
      var latest := KeepLatest(events);
      var deltas := SumDeltas(events);
      LatestFacts(events);
      states := InsertRows(states, latest);
      stats := UpdateStats(stats, deltas);
      CountedFrom(old(stats), stats, deltas, events);
    }
  }

  lemma CountedFrom(before: Stats, after: Stats, deltas: map<CampaignId, Counts>, es: seq<Change>)
    requires forall c :: Sums(deltas, es, c)
    requires after.Keys == before.Keys
    requires forall c :: c in before ==>
               after[c] == before[c].(counts := before[c].counts.Plus(if c in deltas then deltas[c] else ZERO))
    ensures after == Counted(before, es)
  {
    forall c | c in before ensures after[c] == Counted(before, es)[c] {
      assert Sums(deltas, es, c);
    }
  }

  lemma AppendNone(t: Table)
    ensures Append(t, map[]) == t
  {
    assert RowKeys(map[]) == {};
  }

  /** What is under a key after an insert: the row of before, or the kept change's. */
  function Inserted(t: Table, m: map<CardKey, Change>, q: Key): Option<Row> {
    if q in t then Some(t[q])
    else if q.Owner() in m && m[q.Owner()].transition == q.transition then Some(m[q.Owner()].ToRow())
    else None
  }

  lemma AppendAt(t: Table, m: map<CardKey, Change>, q: Key)
    ensures (if q in Append(t, m) then Some(Append(t, m)[q]) else None) == Inserted(t, m, q)
  {
    assert q in RowKeys(m) <==> q.Owner() in m && m[q.Owner()].transition == q.transition by {
      assert q == Key(q.Owner().card, q.Owner().campaign, q.transition);
    }
  }

  lemma AppendOne(t: Table, m: map<CardKey, Change>, k: CardKey, e: Change)
    requires k !in m && e.Owner() == k && forall q :: q in m ==> m[q].Owner() == q
    ensures Append(t, m[k := e]) == InsertOne(Append(t, m), e)
  {
    var a, b := Append(t, m[k := e]), InsertOne(Append(t, m), e);
    forall q: Key ensures (q in a <==> q in b) && (q in a ==> a[q] == b[q]) {
      AppendAt(t, m[k := e], q);
      AppendAt(t, m, q);
    }
    SameTables(a, b);
  }

  lemma SameTables(a: Table, b: Table)
    requires forall q :: (q in a <==> q in b) && (q in a ==> a[q] == b[q])
    ensures a == b
  {
  }
}
