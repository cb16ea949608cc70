/** Operations on the durable campaign state, and the law of its counters:
    the five columns add up to the total. */
module CampaignStats {
  import opened Common
  import opened CardStates
  import opened CardStateSchedules

  ghost predicate Conserved(db: Db, c: CampaignId) {
    c in db.stats ==> db.stats[c].counts.Sum() == db.stats[c].total
  }

  // ------------------------------------------------------- appended newest rows

  /** Cards of the campaign that have a row. */
  function CardsOf(t: Table, c: CampaignId): set<CardKey> {
    set q | q in t && q.campaign == c :: q.Owner()
  }

  ghost predicate Known(t: Table, ks: set<CardKey>) {
    forall k :: k in ks ==> HeadOf(t, k).Some?
  }

  ghost function NextKey(t: Table, k: CardKey): Key
    requires HeadOf(t, k).Some?
  {
    Key(k.card, k.campaign, HeadOf(t, k).value.transition + 1)
  }

  /** INSERT ... SELECT over the newest rows: one more row for each card of ks. */
  ghost function AppendNext(t: Table, ks: set<CardKey>, row: Row -> Row): Table
    requires Known(t, ks)
  {
    t + (map q | q in (set k | k in ks :: NextKey(t, k)) :: row(HeadOf(t, q.Owner()).value.row))
  }

  lemma AppendNextHeads(t: Table, ks: set<CardKey>, row: Row -> Row, k: CardKey)
    requires Known(t, ks)
    ensures HeadOf(AppendNext(t, ks, row), k) ==
              if k in ks then Some(Head(HeadOf(t, k).value.transition + 1, row(HeadOf(t, k).value.row)))
              else HeadOf(t, k)
  {
    var t' := AppendNext(t, ks, row);
    var h, h' := HeadOf(t, k), HeadOf(t', k);
    if k in ks {
      assert NextKey(t, k) in t';
      forall q | q in t' && q.Owner() == k ensures q.transition <= h.value.transition + 1 {
      }
    } else {
      forall q | q in t' && q.Owner() == k ensures q in t && t[q] == t'[q] {
      }
      if h.Some? {
        assert Key(k.card, k.campaign, h.value.transition) in t';
      }
    }
  }

  // ----------------------------------------------------------------- operations

  function Adjust(stats: Stats, c: CampaignId, d: Counts): Stats {
    if c in stats then stats[c := stats[c].(counts := stats[c].counts.Plus(d))] else stats
  }

  ghost function Unfinished(t: Table, c: CampaignId): set<CardKey> {
    set k | k in CardsOf(t, c) && HeadOf(t, k).Some? && !HeadOf(t, k).value.row.status.Terminal()
  }

  function SkippedRow(at: int): Row -> Row {
    (r: Row) => Row(Skipped, r.step, r.retry, None, "", at)
  }

  /** Every unfinished card is skipped; live counters move to `skipped`. */
  ghost function AbortCampaign(db: Db, c: CampaignId, at: int): Db {
    var ks := Unfinished(db.states, c);
    if ks == {} then db
    else
      Db(AppendNext(db.states, ks, SkippedRow(at)),
         if c in db.stats then
           var n := db.stats[c].counts;
           db.stats[c := db.stats[c].(counts := n.(skipped := n.skipped + n.pending + n.inProgress, pending := 0, inProgress := 0))]
         else db.stats)
  }

  function PendingRow(step: int, at: int): Row -> Row {
    (r: Row) => Row(Pending, step, 0, None, "", at)
  }

  /** The listed cards that have rows start again from `step`. */
  ghost function ResetFailedCards(db: Db, c: CampaignId, cards: set<CardId>, step: int, at: int): Db {
    var ks := set k | k in CardsOf(db.states, c) && k.card in cards && HeadOf(db.states, k).Some?;
    if ks == {} then db
    else
      Db(AppendNext(db.states, ks, PendingRow(step, at)),
         Adjust(db.stats, c, Counts(|ks|, 0, 0, -|ks|, 0)))
  }

  function ColumnOrPending(s: Status): Column {
    if StatusColumn(s).NoCol? then PendingCol else StatusColumn(s)
  }

  function MoveColumn(stats: Stats, c: CampaignId, from: Column, to: Column): Stats {
    if from == to || c !in stats then stats
    else stats[c := stats[c].(counts := stats[c].counts.Bump(from, -1).Bump(to, 1))]
  }

  /** The all-zero identifiers of a row that was never read. */
  const NIL_KEY := Key(0, 0, 1)

  /** A single-card update: one row after the card's newest.  A card without
      rows is taken for pending, but its new row is built from an empty record
      and so carries the nil identifiers; a second one violates the key. */
  ghost function UpdateCampaignCard(db: Db, c: CampaignId, card: CardId, status: Status, at: int): Db {
    var k := CardKey(card, c);
    match HeadOf(db.states, k)
    case Some(h) =>
      Db(AppendNext(db.states, {k}, (r: Row) => r.(status := status, at := at)),
         MoveColumn(db.stats, c, ColumnOrPending(h.row.status), ColumnOrPending(status)))
    case None =>
      if NIL_KEY in db.states then db
      else Db(db.states[NIL_KEY := Row(status, 0, 0, None, "", at)],
              MoveColumn(db.stats, c, PendingCol, ColumnOrPending(status)))
  }

  function InitialRows(t: Table, c: CampaignId, cards: set<CardId>, step: int, at: int): Table {
    t + (map q | q in (set card | card in cards :: Key(card, c, 0)) && q !in t :: Row(Pending, step, 0, None, "", at))
  }

  function Started(t: Table, c: CampaignId): set<Key> {
    set q | q in t && q.campaign == c && q.transition == 0
  }

  /** Initial rows, then a counter row whose total and pending are recounted
      and whose other columns, if it exists already, are left alone. */
  function InitializeCampaign(db: Db, c: CampaignId, cards: set<CardId>, step: int, at: int): Db {
    if cards == {} then db
    else
      var t := InitialRows(db.states, c, cards, step, at);
      var n := |Started(t, c)|;
      Db(t, db.stats[c := StatsRow(n, if c in db.stats then db.stats[c].counts.(pending := n) else Counts(n, 0, 0, 0, 0))])
  }

  // -------------------------------------------------------------- conservation

  lemma BumpSums(n: Counts, c: Column, adj: int)
    ensures n.Bump(c, adj).Sum() == n.Sum() + if c.NoCol? then 0 else adj
  {
  }

  lemma PlusSums(a: Counts, b: Counts)
    ensures a.Plus(b).Sum() == a.Sum() + b.Sum()
  {
  }

  /** How far a batch moves a campaign's sum. */
  lemma {:induction false} DeltasSum(es: seq<Change>, c: CampaignId)
    ensures Deltas(es, c).Sum() == Gained(es, c)
  {
    if es != [] {
      DeltasSum(es[..|es| - 1], c);
      var e := es[|es| - 1];
      PlusSums(Deltas(es[..|es| - 1], c), DeltaOf(e, c));
      DeltaSum(e, c);
    }
  }

  lemma DeltaSum(e: Change, c: CampaignId)
    ensures DeltaOf(e, c).Sum() ==
              if e.campaign != c then 0
              else (if StatusColumn(e.statsTo).NoCol? then 0 else 1) - (if StatusColumn(e.statsFrom).NoCol? then 0 else 1)
  {
    MovedSum(StatusColumn(e.statsFrom), StatusColumn(e.statsTo));
  }

  lemma MovedSum(from: Column, to: Column)
    ensures ZERO.Bump(from, -1).Bump(to, 1).Sum() == (if to.NoCol? then 0 else 1) - (if from.NoCol? then 0 else 1)
  {
    BumpSums(ZERO, from, -1);
    BumpSums(ZERO.Bump(from, -1), to, 1);
  }

  /** Counters entered less counters left, over the campaign's changes. */
  function Gained(es: seq<Change>, c: CampaignId): int {
    if es == [] then 0
    else
      var e := es[|es| - 1];
      Gained(es[..|es| - 1], c)
      + if e.campaign != c then 0
        else (if StatusColumn(e.statsTo).NoCol? then 0 else 1) - (if StatusColumn(e.statsFrom).NoCol? then 0 else 1)
  }

  /** A flush keeps the sum exactly when its changes leave as many known
      columns as they enter. */
  lemma FlushConservesExactly(db: Db, c: CampaignId, es: seq<Change>)
    requires c in db.stats && Conserved(db, c)
    ensures Conserved(WriteBatch(db, es), c) <==> Gained(es, c) == 0
  {
    CountedSums(db.stats, c, es);
  }

  lemma CountedSums(stats: Stats, c: CampaignId, es: seq<Change>)
    requires c in stats
    ensures Counted(stats, es)[c].total == stats[c].total
    ensures Counted(stats, es)[c].counts.Sum() == stats[c].counts.Sum() + Gained(es, c)
  {
    DeltasSum(es, c);
    PlusSums(stats[c].counts, Deltas(es, c));
  }

  lemma {:induction false} BalancedGainNothing(es: seq<Change>, c: CampaignId)
    requires forall e :: e in es ==> (StatusColumn(e.statsFrom).NoCol? <==> StatusColumn(e.statsTo).NoCol?)
    ensures Gained(es, c) == 0
  {
    if es != [] {
      BalancedGainNothing(es[..|es| - 1], c);
    }
  }

  lemma AbortConserves(db: Db, c: CampaignId, d: CampaignId, at: int)
    requires Conserved(db, c)
    ensures Conserved(AbortCampaign(db, d, at), c)
  {
  }

  lemma ResetConserves(db: Db, c: CampaignId, d: CampaignId, cards: set<CardId>, step: int, at: int)
    requires Conserved(db, c)
    ensures Conserved(ResetFailedCards(db, d, cards, step, at), c)
  {
  }

  lemma MoveConserves(stats: Stats, c: CampaignId, from: Column, to: Column)
    requires c in stats && !from.NoCol? && !to.NoCol?
    ensures MoveColumn(stats, c, from, to)[c].counts.Sum() == stats[c].counts.Sum()
    ensures MoveColumn(stats, c, from, to)[c].total == stats[c].total
  {
    BumpSums(stats[c].counts, from, -1);
    BumpSums(stats[c].counts.Bump(from, -1), to, 1);
  }

  lemma UpdateConserves(db: Db, c: CampaignId, d: CampaignId, card: CardId, status: Status, at: int)
    requires Conserved(db, c)
    ensures Conserved(UpdateCampaignCard(db, d, card, status, at), c)
  {
    if d in db.stats {
      var h := HeadOf(db.states, CardKey(card, d));
      MoveConserves(db.stats, d, if h.Some? then ColumnOrPending(h.value.row.status) else PendingCol, ColumnOrPending(status));
    }
  }

  /** An update lands on the card it names exactly when that card has a row; it then
      changes the status and the time, and nothing else of the newest row. */
  lemma UpdateLandsExactly(db: Db, c: CampaignId, card: CardId, status: Status, at: int)
    requires CardKey(card, c) != NIL_KEY.Owner()
    ensures var k, t' := CardKey(card, c), UpdateCampaignCard(db, c, card, status, at).states;
            var h, h' := HeadOf(db.states, k), HeadOf(t', k);
            && (h'.Some? && h'.value.row.status == status && h' != h <==> h.Some?)
            && (h.None? && NIL_KEY !in db.states ==>
                  t' == db.states[NIL_KEY := Row(status, 0, 0, None, "", at)])
            && (h.Some? ==>
                  var r := h.value.row;
                  h' == Some(Head(h.value.transition + 1, Row(status, r.step, r.retry, r.lastMsg, r.error, at))))
  {
    var k, t' := CardKey(card, c), UpdateCampaignCard(db, c, card, status, at).states;
    if HeadOf(db.states, k).Some? {
      AppendNextHeads(db.states, {k}, (r: Row) => r.(status := status, at := at), k);
    } else {
      assert IsHead(t', k, None);
    }
  }

  /** Statuses counted as pending by single-card updates: all without another column. */
  predicate CountsPending(s: Status) {
    s !in {InProgress, AwaitingDlr, AwaitingMo, Completed, Failed, Skipped}
  }

  function One(b: bool): int {
    if b then 1 else 0
  }

  /** The update moves one unit from the column of the old status, pending for a card
      without rows, to that of the new one. */
  lemma UpdateMoves(db: Db, c: CampaignId, card: CardId, status: Status, at: int)
    requires c in db.stats && (HeadOf(db.states, CardKey(card, c)).Some? || NIL_KEY !in db.states)
    ensures var h, stats := HeadOf(db.states, CardKey(card, c)), UpdateCampaignCard(db, c, card, status, at).stats;
            var from := if h.Some? then h.value.row.status else Pending;
            && c in stats && stats[c].total == db.stats[c].total
            && var n, n' := db.stats[c].counts, stats[c].counts;
               && n'.pending == n.pending + One(CountsPending(status)) - One(CountsPending(from))
               && n'.inProgress == n.inProgress + One(status in {InProgress, AwaitingDlr, AwaitingMo})
                                                - One(from in {InProgress, AwaitingDlr, AwaitingMo})
               && n'.completed == n.completed + One(status == Completed) - One(from == Completed)
               && n'.failed == n.failed + One(status == Failed) - One(from == Failed)
               && n'.skipped == n.skipped + One(status == Skipped) - One(from == Skipped)
  {
    var h := HeadOf(db.states, CardKey(card, c));
    MoveExactly(db.stats, c, if h.Some? then h.value.row.status else Pending, status);
  }

  lemma MoveExactly(stats: Stats, c: CampaignId, from: Status, to: Status)
    requires c in stats
    ensures var stats' := MoveColumn(stats, c, ColumnOrPending(from), ColumnOrPending(to));
            && c in stats' && stats'[c].total == stats[c].total
            && var n, n' := stats[c].counts, stats'[c].counts;
               && n'.pending == n.pending + One(CountsPending(to)) - One(CountsPending(from))
               && n'.inProgress == n.inProgress + One(to in {InProgress, AwaitingDlr, AwaitingMo})
                                                - One(from in {InProgress, AwaitingDlr, AwaitingMo})
               && n'.completed == n.completed + One(to == Completed) - One(from == Completed)
               && n'.failed == n.failed + One(to == Failed) - One(from == Failed)
               && n'.skipped == n.skipped + One(to == Skipped) - One(from == Skipped)
  {
  }

  /** Initialising keeps the law exactly when nothing has left `pending` yet,
      or what has left nets out to zero. */
  lemma InitializeConservesExactly(db: Db, c: CampaignId, cards: set<CardId>, step: int, at: int)
    requires cards != {}
    ensures Conserved(InitializeCampaign(db, c, cards, step, at), c) <==>
            (c in db.stats ==> db.stats[c].counts.Sum() == db.stats[c].counts.pending)
  {
  }

  datatype Op =
    | Flush(changes: seq<Change>)
    | Abort(campaign: CampaignId, at: int)
    | Reset(campaign: CampaignId, cards: set<CardId>, step: int, at: int)
    | Update(campaign: CampaignId, card: CardId, status: Status, at: int)

  ghost predicate Applies(db: Db, op: Op) {
    match op
    case Flush(es) => forall e :: e in es ==> (StatusColumn(e.statsFrom).NoCol? <==> StatusColumn(e.statsTo).NoCol?)
    case _ => true
  }

  ghost function Apply(db: Db, op: Op): Db
    requires Applies(db, op)
  {
    match op
    case Flush(es) => WriteBatch(db, es)
    case Abort(c, at) => AbortCampaign(db, c, at)
    case Reset(c, cards, step, at) => ResetFailedCards(db, c, cards, step, at)
    case Update(c, card, status, at) => UpdateCampaignCard(db, c, card, status, at)
  }

  ghost function ApplyAll(db: Db, ops: seq<Op>): Option<Db>
    decreases |ops|
  {
    if ops == [] then Some(db)
    else if !Applies(db, ops[0]) then None
    else ApplyAll(Apply(db, ops[0]), ops[1..])
  }

  lemma ApplyConserves(db: Db, op: Op, c: CampaignId)
    requires Conserved(db, c) && Applies(db, op)
    ensures Conserved(Apply(db, op), c)
  {
    match op
    case Flush(es) =>
      BalancedGainNothing(es, c);
      if c in db.stats {
        FlushConservesExactly(db, c, es);
      }
    case Abort(d, at) => AbortConserves(db, c, d, at);
    case Reset(d, cards, step, at) => ResetConserves(db, c, d, cards, step, at);
    case Update(d, card, status, at) => UpdateConserves(db, c, d, card, status, at);
  }

  lemma {:induction false} RunConserves(db: Db, ops: seq<Op>, c: CampaignId)
    requires Conserved(db, c) && ApplyAll(db, ops).Some?
    ensures Conserved(ApplyAll(db, ops).value, c)
    decreases |ops|
  {
    if ops != [] {
      ApplyConserves(db, ops[0], c);
      RunConserves(Apply(db, ops[0]), ops[1..], c);
    }
  }

  /** One initialisation per page of targets. */
  function InitializePages(db: Db, c: CampaignId, pages: seq<set<CardId>>, step: int, at: int): Db {
    if pages == [] then db
    else InitializeCampaign(InitializePages(db, c, pages[..|pages| - 1], step, at), c, pages[|pages| - 1], step, at)
  }

  /** The pages leave every card started pending and nothing else counted. */
  lemma {:induction false} PagesConserve(db: Db, c: CampaignId, pages: seq<set<CardId>>, step: int, at: int)
    requires c !in db.stats
    ensures var db' := InitializePages(db, c, pages, step, at);
            && Conserved(db', c)
            && (c in db'.stats ==>
                  db'.stats[c] == StatsRow(|Started(db'.states, c)|, Counts(|Started(db'.states, c)|, 0, 0, 0, 0)))
  {
    if pages != [] {
      PagesConserve(db, c, pages[..|pages| - 1], step, at);
    }
  }

  function AllCards(pages: seq<set<CardId>>): set<CardId> {
    if pages == [] then {} else AllCards(pages[..|pages| - 1]) + pages[|pages| - 1]
  }

  lemma {:induction false} KeysSize(cards: set<CardId>, c: CampaignId)
    ensures |set card | card in cards :: Key(card, c, 0)| == |cards|
  {
    if x :| x in cards {
      KeysSize(cards - {x}, c);
      assert (set card | card in cards :: Key(card, c, 0)) == (set card | card in cards - {x} :: Key(card, c, 0)) + {Key(x, c, 0)};
    }
  }

  /** The campaign's rows are the initial ones of these cards. */
  ghost predicate JustStarted(t: Table, c: CampaignId, cards: set<CardId>, step: int, at: int) {
    forall q: Key :: q.campaign == c ==>
      && (q in t <==> q.card in cards && q.transition == 0)
      && (q in t ==> t[q].status == Pending && t[q].step == step && t[q].retry == 0 && t[q].lastMsg == None && t[q].at == at)
  }

  lemma PageStarts(t: Table, c: CampaignId, cards: set<CardId>, page: set<CardId>, step: int, at: int)
    requires JustStarted(t, c, cards, step, at)
    ensures JustStarted(InitialRows(t, c, page, step, at), c, cards + page, step, at)
  {
    var t' := InitialRows(t, c, page, step, at);
    forall q: Key | q.campaign == c ensures q in t' <==> q.card in cards + page && q.transition == 0 {
      if q.transition == 0 {
        assert q == Key(q.card, c, 0);
      }
    }
  }

  lemma StartedCount(t: Table, c: CampaignId, cards: set<CardId>, step: int, at: int)
    requires JustStarted(t, c, cards, step, at)
    ensures |Started(t, c)| == |cards|
  {
    KeysSize(cards, c);
    var keys := set card | card in cards :: Key(card, c, 0);
    forall q ensures q in Started(t, c) <==> q in keys {
      if q.campaign == c && q.transition == 0 {
        assert q == Key(q.card, c, 0);
      }
    }
    assert Started(t, c) == keys;
  }

  /** A first start, page by page: the campaign's rows are one initial row at the first
      step for each card of the pages, and the counters say that many, all pending. */
  lemma {:induction false} PagesStart(db: Db, c: CampaignId, pages: seq<set<CardId>>, step: int, at: int)
    requires c !in db.stats && forall q :: q in db.states ==> q.campaign != c
    ensures var db', n := InitializePages(db, c, pages, step, at), |AllCards(pages)|;
            && JustStarted(db'.states, c, AllCards(pages), step, at)
            && (n > 0 ==> c in db'.stats && db'.stats[c] == StatsRow(n, Counts(n, 0, 0, 0, 0)))
  {
    if pages != [] {
      var init, page := pages[..|pages| - 1], pages[|pages| - 1];
      var db1 := InitializePages(db, c, init, step, at);
      PagesStart(db, c, init, step, at);
      PagesConserve(db, c, pages, step, at);
      PageStarts(db1.states, c, AllCards(init), page, step, at);
      if page == {} {
        assert AllCards(pages) == AllCards(init);
      } else {
        StartedCount(InitialRows(db1.states, c, page, step, at), c, AllCards(pages), step, at);
      }
    }
  }

  /** From a first start, page by page, every run of flushes, aborts, resets and
      card updates in any order keeps the sum of the columns equal to the total. */
  lemma ConservedFromStart(db: Db, c: CampaignId, pages: seq<set<CardId>>, step: int, at: int, ops: seq<Op>)
    requires c !in db.stats
    requires ApplyAll(InitializePages(db, c, pages, step, at), ops).Some?
    ensures Conserved(ApplyAll(InitializePages(db, c, pages, step, at), ops).value, c)
  {
    PagesConserve(db, c, pages, step, at);
    RunConserves(InitializePages(db, c, pages, step, at), ops, c);
  }

  // --------------------------------------------------------------- effect of abort

  lemma UnfinishedExactly(t: Table, c: CampaignId, k: CardKey)
    ensures k in Unfinished(t, c) <==> k.campaign == c && HeadOf(t, k).Some? && !HeadOf(t, k).value.row.status.Terminal()
  {
    var h := HeadOf(t, k);
    if h.Some? && k.campaign == c {
      assert Key(k.card, k.campaign, h.value.transition).Owner() == k;
      assert k in CardsOf(t, c);
    }
  }

  lemma SkippedHead(t: Table, ks: set<CardKey>, at: int, k: CardKey)
    requires Known(t, ks)
    ensures var h := HeadOf(t, k);
            HeadOf(AppendNext(t, ks, SkippedRow(at)), k) ==
              if k in ks then Some(Head(h.value.transition + 1, Row(Skipped, h.value.row.step, h.value.row.retry, None, "", at)))
              else h
  {
    AppendNextHeads(t, ks, SkippedRow(at), k);
  }

  /** Aborting leaves no card of the campaign unfinished, and touches neither
      finished cards nor other campaigns. */
  lemma AbortFinishesAll(db: Db, c: CampaignId, at: int, k: CardKey)
    ensures var h, h' := HeadOf(db.states, k), HeadOf(AbortCampaign(db, c, at).states, k);
            if k.campaign == c && h.Some? && !h.value.row.status.Terminal() then
              h' == Some(Head(h.value.transition + 1, Row(Skipped, h.value.row.step, h.value.row.retry, None, "", at)))
            else h' == h
  {
    UnfinishedExactly(db.states, c, k);
    AbortStates(db, c, at);
    SkippedHead(db.states, Unfinished(db.states, c), at, k);
  }

  /** Also with no card to skip. */
  lemma AbortStates(db: Db, c: CampaignId, at: int)
    ensures Known(db.states, Unfinished(db.states, c))
    ensures AbortCampaign(db, c, at).states == AppendNext(db.states, Unfinished(db.states, c), SkippedRow(at))
  {
    NothingAppended(db.states, SkippedRow(at));
  }

  lemma NothingAppended(t: Table, row: Row -> Row)
    ensures AppendNext(t, {}, row) == t
  {
  }

  /** And moves the live counters to `skipped`, if there was a card to skip; the other
      counters, the total and other campaigns stay. */
  lemma AbortMoves(db: Db, c: CampaignId, at: int, d: CampaignId)
    ensures var stats, skips := AbortCampaign(db, c, at).stats, Unfinished(db.states, c) != {};
            && (d in stats <==> d in db.stats)
            && (d in db.stats && (d != c || !skips) ==> stats[d] == db.stats[d])
            && (c in db.stats && skips ==>
                  var n, n' := db.stats[c].counts, stats[c].counts;
                  && n'.pending == 0 && n'.inProgress == 0 && n'.skipped == n.skipped + n.pending + n.inProgress
                  && n'.completed == n.completed && n'.failed == n.failed && stats[c].total == db.stats[c].total)
  {
  }

  // ------------------------------------------------------------ resetting failed cards

  /** The listed cards of the campaign that have a row. */
  ghost function ResetKeys(t: Table, c: CampaignId, cards: set<CardId>): set<CardKey> {
    set k | k in CardsOf(t, c) && k.card in cards && HeadOf(t, k).Some?
  }

  lemma ResetKeysExactly(t: Table, c: CampaignId, cards: set<CardId>, k: CardKey)
    ensures k in ResetKeys(t, c, cards) <==> k.campaign == c && k.card in cards && HeadOf(t, k).Some?
  {
    var h := HeadOf(t, k);
    if h.Some? && k.campaign == c {
      assert Key(k.card, k.campaign, h.value.transition).Owner() == k;
    }
  }

  /** A reset gives each listed card with a row a pending one at the step, and leaves
      other cards alone. */
  lemma ResetRestarts(db: Db, c: CampaignId, cards: set<CardId>, step: int, at: int, k: CardKey)
    ensures var h, h' := HeadOf(db.states, k), HeadOf(ResetFailedCards(db, c, cards, step, at).states, k);
            if k.campaign == c && k.card in cards && h.Some? then
              h' == Some(Head(h.value.transition + 1, Row(Pending, step, 0, None, "", at)))
            else h' == h
  {
    ResetStates(db, c, cards, step, at);
    ResetHead(db.states, c, cards, step, at, k);
  }

  lemma ResetHead(t: Table, c: CampaignId, cards: set<CardId>, step: int, at: int, k: CardKey)
    requires Known(t, ResetKeys(t, c, cards))
    ensures var h, h' := HeadOf(t, k), HeadOf(AppendNext(t, ResetKeys(t, c, cards), PendingRow(step, at)), k);
            if k.campaign == c && k.card in cards && h.Some? then
              h' == Some(Head(h.value.transition + 1, Row(Pending, step, 0, None, "", at)))
            else h' == h
  {
    ResetKeysExactly(t, c, cards, k);
    PendingHead(t, ResetKeys(t, c, cards), step, at, k);
  }

  lemma ResetStates(db: Db, c: CampaignId, cards: set<CardId>, step: int, at: int)
    ensures Known(db.states, ResetKeys(db.states, c, cards))
    ensures ResetFailedCards(db, c, cards, step, at).states ==
              AppendNext(db.states, ResetKeys(db.states, c, cards), PendingRow(step, at))
  {
    NothingAppended(db.states, PendingRow(step, at));
  }

  lemma PendingHead(t: Table, ks: set<CardKey>, step: int, at: int, k: CardKey)
    requires Known(t, ks)
    ensures var h := HeadOf(t, k);
            HeadOf(AppendNext(t, ks, PendingRow(step, at)), k) ==
              if k in ks then Some(Head(h.value.transition + 1, Row(Pending, step, 0, None, "", at))) else h
  {
    AppendNextHeads(t, ks, PendingRow(step, at), k);
  }

  /** `failed` loses and `pending` gains as many as are reset, failed or not. */
  lemma ResetMoves(db: Db, c: CampaignId, cards: set<CardId>, step: int, at: int, d: CampaignId)
    ensures var stats, m := ResetFailedCards(db, c, cards, step, at).stats, |ResetKeys(db.states, c, cards)|;
            && (d in stats <==> d in db.stats)
            && (d in db.stats && d != c ==> stats[d] == db.stats[d])
            && (c in db.stats ==>
                  var n, n' := db.stats[c].counts, stats[c].counts;
                  && n'.pending == n.pending + m && n'.failed == n.failed - m && stats[c].total == db.stats[c].total
                  && n'.inProgress == n.inProgress && n'.completed == n.completed && n'.skipped == n.skipped)
  {
    assert ResetKeys(db.states, c, cards) ==
           set k | k in CardsOf(db.states, c) && k.card in cards && HeadOf(db.states, k).Some?;
  }

  /** The campaign's cards whose newest row says failed. */
  ghost function FailedCards(t: Table, c: CampaignId): set<CardKey> {
    set k | k in CardsOf(t, c) && HeadOf(t, k).Some? && HeadOf(t, k).value.row.status == Failed
  }

  lemma FailedExactly(t: Table, c: CampaignId, k: CardKey)
    ensures k in FailedCards(t, c) <==> k.campaign == c && HeadOf(t, k).Some? && HeadOf(t, k).value.row.status == Failed
  {
    var h := HeadOf(t, k);
    if h.Some? && k.campaign == c {
      assert Key(k.card, k.campaign, h.value.transition).Owner() == k;
    }
  }

  lemma FailedAfterReset(db: Db, c: CampaignId, cards: set<CardId>, step: int, at: int)
    ensures FailedCards(ResetFailedCards(db, c, cards, step, at).states, c) ==
              FailedCards(db.states, c) - ResetKeys(db.states, c, cards)
  {
    var t' := ResetFailedCards(db, c, cards, step, at).states;
    forall k ensures k in FailedCards(t', c) <==> k in FailedCards(db.states, c) && k !in ResetKeys(db.states, c, cards) {
      FailedExactly(t', c, k);
      FailedExactly(db.states, c, k);
      ResetKeysExactly(db.states, c, cards, k);
      ResetRestarts(db, c, cards, step, at, k);
    }
  }

  /** The counter goes down as the failed cards do exactly when every card reset was
      a failed one, which the code does not look at. */
  lemma ResetTrueExactly(db: Db, c: CampaignId, cards: set<CardId>, step: int, at: int)
    requires c in db.stats && db.stats[c].counts.failed == |FailedCards(db.states, c)|
    ensures var db' := ResetFailedCards(db, c, cards, step, at);
            && c in db'.stats
            && (db'.stats[c].counts.failed == |FailedCards(db'.states, c)| <==>
                forall k :: k in ResetKeys(db.states, c, cards) ==> k in FailedCards(db.states, c))
  {
    var a, b := FailedCards(db.states, c), ResetKeys(db.states, c, cards);
    ResetMoves(db, c, cards, step, at, c);
    FailedAfterReset(db, c, cards, step, at);
    DifferenceSize(a, b);
    SubsetSize(a * b, b);
    assert b <= a <==> a * b == b;
  }

  lemma {:induction false} DifferenceSize<T>(a: set<T>, b: set<T>)
    ensures |a - b| + |a * b| == |a|
  {
    assert a == (a - b) + a * b;
  }
}
